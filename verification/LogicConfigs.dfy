// commands/logic.go: the scanned files are grouped by namespace/name, a source file
// and its metadata twin are merged, and the merged configs are validated.
module LogicConfigs {
  import opened Text
  import opened GoStrings
  import opened Order
  import opened LogicParser

  type Path = seq<string>

  // A file under logic/, by the directories on the way to it. An unreadable file has
  // no text.
  datatype ScannedFile = ScannedFile(dir: Path, filename: string, isPublic: bool, text: Option<string>)

  datatype Kind = Metadata | Source | Other

  // Where the extension starts: at the last dot.
  function ExtStart(filename: string): (n: nat)
    ensures n <= |filename|
  {
    if filename == "" then 0
    else
      var rest := ExtStart(filename[1..]);
      if rest < |filename| - 1 || filename[0] != '.' then rest + 1 else 0
  }

  function NameOf(f: ScannedFile): string {
    f.filename[..ExtStart(f.filename)]
  }

  function KindOf(f: ScannedFile): Kind {
    var ext := f.filename[ExtStart(f.filename)..];
    if ext == ".yaml" || ext == ".yml" then Metadata
    else if ext == ".sql" || ext == ".js" then Source
    else Other
  }

  function NamespaceOf(f: ScannedFile): string {
    if f.dir == [] then "." else Join(f.dir, "/")
  }

  // filepath.Join(namespace, name), which cleans the path it makes.
  function KeyOf(f: ScannedFile): Path {
    var name := NameOf(f);
    if name == "" || name == "." then f.dir
    else if name == ".." && f.dir != [] then f.dir[..|f.dir| - 1]
    else f.dir + [name]
  }

  function Keys(files: seq<ScannedFile>): set<Path> {
    set f | f in files :: KeyOf(f)
  }

  // ---------- what is built ----------

  predicate Loads(f: ScannedFile, yaml: Yaml) {
    && f.text.Some?
    && match KindOf(f)
       case Metadata => yaml(f.text.value, EMPTY).Some?
       case Source => Interpret(f.text.value, f.filename, yaml).Parsed?
       case Other => true
  }

  function Load(f: ScannedFile, yaml: Yaml): Config
    requires Loads(f, yaml) && KindOf(f) != Other
  {
    if KindOf(f) == Metadata then yaml(f.text.value, EMPTY).value else Interpret(f.text.value, f.filename, yaml).config
  }

  function WithKey(files: seq<ScannedFile>, key: Path): (r: seq<ScannedFile>)
    ensures forall f :: f in r <==> f in files && KeyOf(f) == key
  {
    if files == [] then []
    else
      var f := files[|files| - 1];
      assert files == files[..|files| - 1] + [f];
      WithKey(files[..|files| - 1], key) + (if KeyOf(f) == key then [f] else [])
  }

  function OfKind(files: seq<ScannedFile>, kind: Kind): (r: seq<ScannedFile>)
    ensures forall f :: f in r <==> f in files && KindOf(f) == kind
  {
    if files == [] then []
    else
      var f := files[|files| - 1];
      assert files == files[..|files| - 1] + [f];
      OfKind(files[..|files| - 1], kind) + (if KindOf(f) == kind then [f] else [])
  }

  // A field the metadata sets overrides the source's; namespace, name and content stay.
  function Overlay(c: Config, meta: Config): Config {
    c.(target := if meta.target != "" then meta.target else c.target,
       access := if meta.access != "" then meta.access else c.access,
       cache := if meta.cache != "" then meta.cache else c.cache,
       params := if meta.params.Some? then meta.params else c.params)
  }

  // The last metadata file of a key overrides its source.
  function Overlaid(group: seq<ScannedFile>, yaml: Yaml): Config
    requires group != [] && (forall f :: f in group ==> Loads(f, yaml)) && OfKind(group, Source) != []
  {
    var source := Load(OfKind(group, Source)[0], yaml);
    var metas := OfKind(group, Metadata);
    if metas == [] then source else Overlay(source, Load(metas[|metas| - 1], yaml))
  }

  // The first file of a key gives namespace and name.
  function Merged(group: seq<ScannedFile>, yaml: Yaml): Config
    requires group != [] && (forall f :: f in group ==> Loads(f, yaml)) && OfKind(group, Source) != []
  {
    Overlaid(group, yaml).(namespace := NamespaceOf(group[0]), name := NameOf(group[0]))
  }

  ghost predicate GroupBuilds(group: seq<ScannedFile>, yaml: Yaml)
    requires forall f :: f in group ==> Loads(f, yaml)
  {
    group != [] && |OfKind(group, Source)| == 1 && Valid(Merged(group, yaml))
  }

  ghost predicate AllLoad(files: seq<ScannedFile>, yaml: Yaml) {
    forall f :: f in files ==> Loads(f, yaml)
  }

  ghost predicate Buildable(files: seq<ScannedFile>, yaml: Yaml) {
    AllLoad(files, yaml) && forall key :: key in Keys(files) ==> GroupBuilds(WithKey(files, key), yaml)
  }

  // ---------- entries on the heap ----------

  class LogicEntry {
    var namespace: string
    var name: string
    var isPublic: bool
    var meta: LogicConfig?
    var content: LogicConfig?

    constructor (namespace: string, name: string)
      ensures this.namespace == namespace && this.name == name && isPublic && meta == null && content == null
    {
      this.namespace, this.name, isPublic, meta, content := namespace, name, true, null, null;
    }
  }

  type Entries = map<Path, LogicEntry>

  // c holds the last of the files.
  ghost predicate HoldsLast(c: LogicConfig?, files: seq<ScannedFile>, yaml: Yaml)
    reads c
  {
    if c == null then files == []
    else
      && files != []
      && var f := files[|files| - 1];
         Loads(f, yaml) && KindOf(f) != Other && c.Value() == Load(f, yaml)
  }

  // Namespace and name are those of the first file; one private file makes all private.
  ghost predicate Home(namespace: string, name: string, isPublic: bool, group: seq<ScannedFile>) {
    && group != [] && namespace == NamespaceOf(group[0]) && name == NameOf(group[0])
    && (isPublic <==> forall f :: f in group ==> f.isPublic)
  }

  // The entry holds what the files of its key say.
  ghost predicate Describes(e: LogicEntry, group: seq<ScannedFile>, yaml: Yaml)
    reads e, e.meta, e.content
  {
    && Home(e.namespace, e.name, e.isPublic, group)
    && AllLoad(group, yaml)
    && |OfKind(group, Source)| <= 1
    && HoldsLast(e.content, OfKind(group, Source), yaml)
    && HoldsLast(e.meta, OfKind(group, Metadata), yaml)
  }

  // An entry with the objects it points to.
  datatype Owned = Owned(entry: LogicEntry, meta: LogicConfig?, content: LogicConfig?)

  ghost function Objects(entries: Entries): (r: map<Path, Owned>)
    reads entries.Values
    ensures r.Keys == entries.Keys
  {
    map k | k in entries :: Owned(entries[k], entries[k].meta, entries[k].content)
  }

  function Configs(owned: map<Path, Owned>): set<LogicConfig> {
    (set k | k in owned && owned[k].meta != null :: owned[k].meta)
    + (set k | k in owned && owned[k].content != null :: owned[k].content)
  }

  // Two different entries; the content of a is no object of b.
  predicate Apart(a: Owned, b: Owned) {
    a.entry != b.entry && (a.content == null || (a.content != b.content && a.content != b.meta))
  }

  predicate Own(a: Owned) {
    a.content == null || a.content != a.meta
  }

  ghost predicate Separate(owned: map<Path, Owned>) {
    && (forall j, k :: j in owned && k in owned && j != k ==> Apart(owned[j], owned[k]))
    && (forall k :: k in owned ==> Own(owned[k]))
  }

  ghost predicate Tracks(entries: Entries, files: seq<ScannedFile>, yaml: Yaml)
    reads entries.Values, Configs(Objects(entries))
  {
    && entries.Keys == Keys(files)
    && Separate(Objects(entries))
    && forall k :: k in entries ==> Describes(entries[k], WithKey(files, k), yaml)
  }

  lemma {:induction false} WithKeySnoc(files: seq<ScannedFile>, f: ScannedFile, key: Path)
    ensures WithKey(files + [f], key) == WithKey(files, key) + (if KeyOf(f) == key then [f] else [])
  {
    assert (files + [f])[..|files|] == files;
  }

  lemma {:induction false} OfKindSnoc(files: seq<ScannedFile>, f: ScannedFile, kind: Kind)
    ensures OfKind(files + [f], kind) == OfKind(files, kind) + (if KindOf(f) == kind then [f] else [])
  {
    assert (files + [f])[..|files|] == files;
  }

  lemma {:induction false} KeysSnoc(files: seq<ScannedFile>, f: ScannedFile)
    ensures Keys(files + [f]) == Keys(files) + {KeyOf(f)}
  {
  }

  // c is the source config with the fields that the metadata sets, each by itself, over
  // its own; SQL and JavaScript are the source's.
  ghost predicate TakenFrom(c: Config, source: Config, meta: Option<Config>) {
    && c.sql == source.sql && c.js == source.js
    && c.target == (if meta.Some? && meta.value.target != "" then meta.value.target else source.target)
    && c.access == (if meta.Some? && meta.value.access != "" then meta.value.access else source.access)
    && c.cache == (if meta.Some? && meta.value.cache != "" then meta.value.cache else source.cache)
    && c.params == (if meta.Some? && meta.value.params.Some? then meta.value.params else source.params)
  }

  method ApplyLogicMetadata(target: LogicConfig, meta: LogicConfig?)
    modifies target
    ensures target.Value() == if meta == null then old(target.Value()) else Overlay(old(target.Value()), old(meta.Value()))
    ensures TakenFrom(target.Value(), old(target.Value()), if meta == null then None else Some(old(meta.Value())))
    ensures target.namespace == old(target.namespace) && target.name == old(target.name)
  {
    if meta == null {
      return;
    }
    if meta.target != "" {
      target.target := meta.target;
    }
    if meta.access != "" {
      target.access := meta.access;
    }
    if meta.cache != "" {
      target.cache := meta.cache;
    }
    if meta.params != None {
      target.params := meta.params;
    }
  }

  lemma {:induction false} GroupGrows(files: seq<ScannedFile>, file: ScannedFile)
    ensures Keys(files + [file]) == Keys(files) + {KeyOf(file)}
    ensures WithKey(files + [file], KeyOf(file)) == WithKey(files, KeyOf(file)) + [file]
    ensures forall k :: k != KeyOf(file) ==> WithKey(files + [file], k) == WithKey(files, k)
    ensures KeyOf(file) in Keys(files) <==> WithKey(files, KeyOf(file)) != []
  {
    hide WithKey, OfKind, KeyOf, KindOf;
    KeysSnoc(files, file);
    forall k
      ensures WithKey(files + [file], k) == WithKey(files, k) + (if KeyOf(file) == k then [file] else [])
      ensures WithKey(files, k) + [] == WithKey(files, k)
    {
      WithKeySnoc(files, file, k);
    }
    KeyHasGroup(files, KeyOf(file));
  }

  lemma {:induction false} KeyHasGroup(files: seq<ScannedFile>, key: Path)
    ensures key in Keys(files) <==> WithKey(files, key) != []
  {
    hide WithKey, KeyOf;
    if key in Keys(files) {
      var f :| f in files && KeyOf(f) == key;
      assert f in WithKey(files, key);
    }
    if WithKey(files, key) != [] {
      var f := WithKey(files, key)[0];
      assert f in files && KeyOf(f) == key;
    }
  }

  lemma {:induction false} NoneOfKind(kind: Kind)
    ensures OfKind([], kind) == []
  {
  }

  ghost predicate Untouched(e: LogicEntry, file: ScannedFile)
    reads e
  {
    e.namespace == NamespaceOf(file) && e.name == NameOf(file) && e.isPublic && e.meta == null && e.content == null
  }

  ghost predicate HasSource(files: seq<ScannedFile>, key: Path) {
    OfKind(WithKey(files, key), Source) != []
  }

  // Reading and parsing a file.
  method LoadFile(file: ScannedFile, yaml: Yaml) returns (config: LogicConfig?)
    requires KindOf(file) != Other && file.text.Some?
    ensures config == null <==> !Loads(file, yaml)
    ensures config != null ==> fresh(config) && config.Value() == Load(file, yaml)
  {
    hide Interpret, KindOf;
    if KindOf(file) == Metadata {
      config := ParseLogicMetadata(file.text.value, yaml);
    } else {
      var panicked;
      config, panicked := ParseLogicFile(file.text.value, file.filename, yaml);
    }
  }

  lemma {:induction false} HomeMore(namespace: string, name: string, isPublic: bool, group: seq<ScannedFile>, file: ScannedFile)
    requires if group == [] then namespace == NamespaceOf(file) && name == NameOf(file) && isPublic
             else Home(namespace, name, isPublic, group)
    ensures Home(namespace, name, isPublic && file.isPublic, group + [file])
  {
    hide NamespaceOf, NameOf;
    assert forall f :: f in group + [file] <==> f in group || f == file;
  }

  lemma {:induction false} AllLoadMore(group: seq<ScannedFile>, file: ScannedFile, yaml: Yaml)
    requires group == [] || AllLoad(group, yaml)
    ensures AllLoad(group + [file], yaml) <==> Loads(file, yaml)
  {
    hide Loads;
    assert file in group + [file];
  }

  lemma {:induction false} TextLoads(file: ScannedFile, yaml: Yaml)
    ensures Loads(file, yaml) ==> file.text.Some?
    ensures file.text.Some? && KindOf(file) == Other ==> Loads(file, yaml)
  {
    hide KindOf;
  }

  // What a file adds to the entry of its key, which the files of group have made.
  method Extend(entry: LogicEntry, file: ScannedFile, ghost group: seq<ScannedFile>, yaml: Yaml) returns (ok: bool)
    requires if group == [] then Untouched(entry, file) else Describes(entry, group, yaml)
    modifies entry
    ensures ok <==> Loads(file, yaml) && !(KindOf(file) == Source && OfKind(group, Source) != [])
    ensures ok ==> Describes(entry, group + [file], yaml)
    ensures entry.meta == old(entry.meta) || (fresh(entry.meta) && entry.content == old(entry.content))
    ensures entry.content == old(entry.content) || (fresh(entry.content) && entry.meta == old(entry.meta))
  {
    hide WithKey, OfKind, NameOf, NamespaceOf, KindOf, KeyOf, Load, Home, AllLoad, Loads;
    TextLoads(file, yaml);
    AllLoadMore(group, file, yaml);
    HomeMore(entry.namespace, entry.name, entry.isPublic, group, file);
    OfKindSnoc(group, file, Source);
    OfKindSnoc(group, file, Metadata);
    NoneOfKind(Source);
    NoneOfKind(Metadata);
    ghost var sources, metas := OfKind(group, Source), OfKind(group, Metadata);
    assert sources + [] == sources && metas + [] == metas;
    assert HoldsLast(entry.content, sources, yaml) && HoldsLast(entry.meta, metas, yaml);
    if !file.isPublic {
      entry.isPublic := false;
    }
    if file.text.None? {
      return false;
    }
    match KindOf(file) {
      case Metadata =>
        var config := LoadFile(file, yaml);
        if config == null {
          return false;
        }
        entry.meta := config;
        assert HoldsLast(config, metas + [file], yaml);
      case Source =>
        if entry.content != null {
          return false;
        }
        var config := LoadFile(file, yaml);
        if config == null {
          return false;
        }
        entry.content := config;
        assert HoldsLast(config, sources + [file], yaml);
      case Other =>
    }
    ok := true;
  }

  // An entry stays apart from the others if it changes only to objects that are new.
  lemma {:induction false} StaysSeparate(owned: map<Path, Owned>, key: Path, o: Owned)
    requires Separate(owned) && Own(o)
    requires forall k :: k in owned && k != key ==> Apart(owned[k], o) && Apart(o, owned[k])
    ensures Separate(owned[key := o])
  {
  }

  lemma {:induction false} ConfigsGrow(owned: map<Path, Owned>, key: Path, o: Owned)
    ensures forall c :: c in Configs(owned[key := o]) ==> c in Configs(owned) || c == o.meta || c == o.content
    ensures key in owned && owned[key].meta != null ==> owned[key].meta in Configs(owned)
    ensures key in owned && owned[key].content != null ==> owned[key].content in Configs(owned)
  {
  }

  lemma {:induction false} TracksMore(keys: set<Path>, r: Entries, file: ScannedFile, files: seq<ScannedFile>, yaml: Yaml)
    requires keys == Keys(files) && r.Keys == keys + {KeyOf(file)}
    requires forall k :: k in r && k != KeyOf(file) ==> Describes(r[k], WithKey(files, k), yaml)
    requires Describes(r[KeyOf(file)], WithKey(files, KeyOf(file)) + [file], yaml)
    requires Separate(Objects(r))
    ensures Tracks(r, files + [file], yaml)
  {
    hide WithKey, Keys, KeyOf, Describes, Separate;
    GroupGrows(files, file);
    forall k | k in r ensures Describes(r[k], WithKey(files + [file], k), yaml) {
    }
  }

  // Every key has an entry, and all but the one of file say what the files say.
  ghost predicate Ready(entries: Entries, file: ScannedFile, files: seq<ScannedFile>, yaml: Yaml)
    reads entries.Values, Configs(Objects(entries))
  {
    var key := KeyOf(file);
    && entries.Keys == Keys(files) + {key}
    && Separate(Objects(entries))
    && (forall k :: k in entries && k != key ==> Describes(entries[k], WithKey(files, k), yaml))
    && if WithKey(files, key) == [] then Untouched(entries[key], file) else Describes(entries[key], WithKey(files, key), yaml)
  }

  // The entry of the file's key, made if there is none.
  method EntryFor(entries: Entries, file: ScannedFile, ghost files: seq<ScannedFile>, ghost yaml: Yaml) returns (r: Entries)
    requires Tracks(entries, files, yaml)
    ensures KeyOf(file) in r && Ready(r, file, files, yaml)
    ensures fresh(r.Values - entries.Values)
    ensures forall c :: c in Configs(Objects(r)) ==> c in Configs(Objects(entries)) || fresh(c)
  {
    hide WithKey, Keys, KeyOf, NameOf, NamespaceOf, Describes, Separate, Configs;
    var key := KeyOf(file);
    KeyHasGroup(files, key);
    if key in entries {
      return entries;
    }
    var entry := new LogicEntry(NamespaceOf(file), NameOf(file));
    r := entries[key := entry];
    ghost var owned, o := Objects(entries), Owned(entry, null, null);
    assert Objects(r) == owned[key := o];
    StaysSeparate(owned, key, o);
    ConfigsGrow(owned, key, o);
  }

  // The entry extended in place.
  method Update(entries: Entries, file: ScannedFile, ghost files: seq<ScannedFile>, yaml: Yaml) returns (ok: bool)
    requires Ready(entries, file, files, yaml)
    modifies entries[KeyOf(file)]
    ensures ok <==> Loads(file, yaml) && !(KindOf(file) == Source && HasSource(files, KeyOf(file)))
    ensures ok ==> Tracks(entries, files + [file], yaml)
    ensures forall c :: c in Configs(Objects(entries)) ==> c in old(Configs(Objects(entries))) || fresh(c)
  {
    hide WithKey, OfKind, Keys, KeyOf, KindOf, Describes, Untouched, Loads, Separate, Configs;
    var key := KeyOf(file);
    ghost var owned := Objects(entries);
    EntriesDiffer(owned, key);
    var entry := entries[key];
    ok := Extend(entry, file, WithKey(files, key), yaml);
    ghost var o := Owned(entry, entry.meta, entry.content);
    assert Objects(entries) == owned[key := o];
    StaysSeparate(owned, key, o);
    ConfigsGrow(owned, key, o);
    if ok {
      TracksMore(Keys(files), entries, file, files, yaml);
    }
  }

  lemma {:induction false} EntriesDiffer(owned: map<Path, Owned>, key: Path)
    requires Separate(owned)
    ensures key in owned ==> Own(owned[key])
    ensures key in owned ==> forall k :: k in owned && k != key ==> Apart(owned[k], owned[key]) && Apart(owned[key], owned[k])
  {
  }

  lemma {:induction false} SourcesGrow(files: seq<ScannedFile>, more: seq<ScannedFile>, key: Path)
    ensures |OfKind(WithKey(files + more, key), Source)| >= |OfKind(WithKey(files, key), Source)|
    decreases |more|
  {
    hide WithKey, OfKind;
    if more == [] {
      assert files + more == files;
    } else {
      var f := more[|more| - 1];
      assert files + more == files + more[..|more| - 1] + [f];
      SourcesGrow(files, more[..|more| - 1], key);
      var group := WithKey(files + more[..|more| - 1], key);
      WithKeySnoc(files + more[..|more| - 1], f, key);
      OfKindSnoc(group, f, Source);
      assert group + [] == group;
    }
  }

  // A second source for a key is an error whatever follows.
  lemma {:induction false} SecondSource(files: seq<ScannedFile>, i: nat, yaml: Yaml)
    requires i < |files| && KindOf(files[i]) == Source && HasSource(files[..i], KeyOf(files[i]))
    ensures !Buildable(files, yaml)
  {
    hide WithKey, OfKind, KeyOf, KindOf;
    var key := KeyOf(files[i]);
    WithKeySnoc(files[..i], files[i], key);
    OfKindSnoc(WithKey(files[..i], key), files[i], Source);
    assert files[..i + 1] == files[..i] + [files[i]];
    SourcesGrow(files[..i + 1], files[i + 1..], key);
    assert files == files[..i + 1] + files[i + 1..];
    assert files[i] in files && key in Keys(files);
  }

  method CollectEntries(files: seq<ScannedFile>, yaml: Yaml) returns (ok: bool, entries: Entries)
    ensures !ok ==> !Buildable(files, yaml)
    ensures ok ==> AllLoad(files, yaml) && Tracks(entries, files, yaml)
    ensures ok ==> fresh(entries.Values) && fresh(Configs(Objects(entries)))
  {
    hide WithKey, OfKind, KeyOf, KindOf, Loads, Buildable, HasSource, Tracks, Ready, Objects, Configs;
    entries := map[];
    NothingTracked(yaml);
    for i := 0 to |files|
      invariant AllLoad(files[..i], yaml) && Tracks(entries, files[..i], yaml)
      invariant fresh(entries.Values) && fresh(Configs(Objects(entries)))
    {
      var file := files[i];
      entries := EntryFor(entries, file, files[..i], yaml);
      ok := Update(entries, file, files[..i], yaml);
      assert files[..i + 1] == files[..i] + [file];
      if !ok {
        if Loads(file, yaml) {
          SecondSource(files, i, yaml);
        } else {
          Unloaded(files, file, yaml);
        }
        return false, map[];
      }
    }
    assert files[..|files|] == files;
    ok := true;
  }

  lemma {:induction false} NothingTracked(yaml: Yaml)
    ensures Tracks(map[], [], yaml) && Configs(Objects(map[])) == {}
  {
  }

  lemma {:induction false} Unloaded(files: seq<ScannedFile>, file: ScannedFile, yaml: Yaml)
    requires file in files && !Loads(file, yaml)
    ensures !Buildable(files, yaml)
  {
  }

  // The entry's content becomes the config of its key.
  method Finish(entry: LogicEntry, ghost group: seq<ScannedFile>, yaml: Yaml) returns (config: LogicConfig?)
    requires Describes(entry, group, yaml)
    requires entry.content == null || entry.content != entry.meta
    modifies if entry.content == null then {} else {entry.content}
    ensures config != null <==> GroupBuilds(group, yaml)
    ensures config != null ==> config == entry.content && config.Value() == Merged(group, yaml)
  {
    hide OfKind, Loads, Load, Valid;
    config := entry.content;
    if config == null {
      return;
    }
    ApplyLogicMetadata(config, entry.meta);
    config.namespace := entry.namespace;
    config.name := entry.name;
    assert config.Value() == Merged(group, yaml);
    var ok := ValidateLogicConfig(config);
    if !ok {
      config := null;
    }
  }

  ghost predicate Done(configs: seq<LogicConfig>, keys: seq<Path>, files: seq<ScannedFile>, yaml: Yaml)
    requires AllLoad(files, yaml)
    reads configs
  {
    && |configs| == |keys|
    && forall i :: 0 <= i < |keys| ==>
         var group := WithKey(files, keys[i]);
         GroupBuilds(group, yaml) && configs[i].Value() == Merged(group, yaml)
  }

  lemma {:induction false} DoneMore(configs: seq<LogicConfig>, keys: seq<Path>, config: LogicConfig, key: Path,
                                    files: seq<ScannedFile>, yaml: Yaml)
    requires AllLoad(files, yaml) && Done(configs, keys, files, yaml)
    requires GroupBuilds(WithKey(files, key), yaml) && config.Value() == Merged(WithKey(files, key), yaml)
    ensures Done(configs + [config], keys + [key], files, yaml)
  {
    hide WithKey, GroupBuilds, Merged;
  }

  lemma {:induction false} DistinctMore(keys: seq<Path>, key: Path)
    requires Distinct(keys) && key !in keys
    ensures Distinct(keys + [key]) && Elements(keys + [key]) == Elements(keys) + {key}
  {
  }

  lemma {:induction false} ObjectAt(entries: Entries, key: Path)
    requires key in entries
    ensures Objects(entries)[key] == Owned(entries[key], entries[key].meta, entries[key].content)
  {
  }

  // No config object appears twice.
  ghost predicate AllDifferent(configs: seq<LogicConfig>) {
    forall i, j :: 0 <= i < j < |configs| ==> configs[i] != configs[j]
  }

  lemma {:induction false} DifferentMore(configs: seq<LogicConfig>, config: LogicConfig)
    requires AllDifferent(configs) && config !in configs
    ensures AllDifferent(configs + [config])
  {
  }

  ghost predicate Paired(configs: seq<LogicConfig>, keys: seq<Path>, owned: map<Path, Owned>) {
    |configs| == |keys| && forall i :: 0 <= i < |keys| ==> keys[i] in owned && configs[i] == owned[keys[i]].content
  }

  lemma {:induction false} PairedMore(configs: seq<LogicConfig>, keys: seq<Path>, config: LogicConfig, key: Path, owned: map<Path, Owned>)
    requires Paired(configs, keys, owned) && key in owned && config == owned[key].content
    ensures Paired(configs + [config], keys + [key], owned)
  {
  }

  lemma {:induction false} NothingPaired(owned: map<Path, Owned>)
    ensures Paired([], [], owned)
  {
  }

  // keys are done, rest is to do.
  ghost predicate Halfway(owned: map<Path, Owned>, configs: seq<LogicConfig>, keys: seq<Path>, rest: set<Path>) {
    && Distinct(keys) && Elements(keys) !! rest && Elements(keys) + rest == owned.Keys
    && Paired(configs, keys, owned) && AllDifferent(configs)
  }

  lemma {:induction false} HalfwayMore(owned: map<Path, Owned>, configs: seq<LogicConfig>, keys: seq<Path>, rest: set<Path>,
                                       config: LogicConfig, key: Path)
    requires Halfway(owned, configs, keys, rest) && key in rest && config == owned[key].content && config !in configs
    ensures Halfway(owned, configs + [config], keys + [key], rest - {key})
  {
    hide Distinct, AllDifferent, Paired, Elements;
    NotAmong(keys, rest, key);
    PairedMore(configs, keys, config, key, owned);
    DifferentMore(configs, config);
    DistinctMore(keys, key);
  }

  lemma {:induction false} NotAmong(keys: seq<Path>, rest: set<Path>, key: Path)
    requires Elements(keys) !! rest && key in rest
    ensures key !in keys
  {
    assert key !in Elements(keys);
  }

  // The content of an entry is not among the configs that are done already.
  lemma {:induction false} NotDoneYet(owned: map<Path, Owned>, configs: seq<LogicConfig>, keys: seq<Path>, key: Path)
    requires Separate(owned) && key in owned && key !in keys && owned[key].content != null
    requires Paired(configs, keys, owned)
    ensures owned[key].content !in configs
  {
    hide Separate, Own;
    EntriesDiffer(owned, key);
  }

  // One round of the loop over the entries: the others are left as they were.
  method FinishKey(entries: Entries, key: Path, ghost rest: set<Path>, ghost configs: seq<LogicConfig>, ghost keys: seq<Path>,
                   ghost files: seq<ScannedFile>, yaml: Yaml)
    returns (config: LogicConfig?)
    requires key in rest && rest <= entries.Keys
    requires Separate(Objects(entries)) && Halfway(Objects(entries), configs, keys, rest)
    requires forall k :: k in rest ==> Describes(entries[k], WithKey(files, k), yaml)
    requires AllLoad(files, yaml) && Done(configs, keys, files, yaml)
    modifies Configs(Objects(entries))
    ensures Objects(entries) == old(Objects(entries))
    ensures config != null <==> GroupBuilds(WithKey(files, key), yaml)
    ensures config != null ==> config == entries[key].content && config.Value() == Merged(WithKey(files, key), yaml)
    ensures Done(configs, keys, files, yaml) && config !in configs
    ensures forall k :: k in rest && k != key ==> Describes(entries[k], WithKey(files, k), yaml)
  {
    hide WithKey, OfKind, KeyOf, KindOf, Describes, Loads, Keys, GroupBuilds, Merged, Separate, Configs, Done, AllLoad, Paired, Distinct, Objects;
    ghost var owned := Objects(entries);
    EntriesDiffer(owned, key);
    ObjectAt(entries, key);
    NotAmong(keys, rest, key);
    if owned[key].content != null {
      NotDoneYet(owned, configs, keys, key);
      ConfigsGrow(owned, key, owned[key]);
      assert owned[key := owned[key]] == owned;
    }
    forall k | k in rest && k != key
      ensures entries[k] != entries[key]
      ensures owned[key].content != null ==> entries[k].content != owned[key].content && entries[k].meta != owned[key].content
    {
      ObjectAt(entries, k);
    }
    config := Finish(entries[key], WithKey(files, key), yaml);
  }

  // ---------- what each config is built from ----------

  ghost predicate IsMetadataName(filename: string) {
    EndsIn(filename, ".yaml") || EndsIn(filename, ".yml")
  }

  ghost predicate IsSourceName(filename: string) {
    EndsIn(filename, ".sql") || EndsIn(filename, ".js")
  }

  // What follows the last dot is the extension; without a dot the name is all there is.
  lemma {:induction false} NameIs(f: ScannedFile, stem: string, ext: string)
    requires '.' !in ext
    ensures f.filename == stem + "." + ext ==> NameOf(f) == stem
    ensures f.filename == ext ==> NameOf(f) == ext
  {
    if f.filename == stem + "." + ext {
      ExtStartIs(stem, ext);
      assert f.filename[..|stem|] == stem;
    }
    if f.filename == ext {
      NoExt(ext);
      assert ext[..|ext|] == ext;
    }
  }

  lemma {:induction false} NoExt(ext: string)
    requires '.' !in ext
    ensures ExtStart(ext) == |ext|
  {
    if ext != "" {
      assert forall c :: c in ext[1..] ==> c in ext;
      NoExt(ext[1..]);
    }
  }

  lemma {:induction false} ExtStartIs(stem: string, ext: string)
    requires '.' !in ext
    ensures ExtStart(stem + "." + ext) == |stem|
  {
    var s := stem + "." + ext;
    if stem == "" {
      assert s[1..] == ext;
      NoExt(ext);
    } else {
      assert s[1..] == stem[1..] + "." + ext;
      ExtStartIs(stem[1..], ext);
    }
  }

  lemma {:induction false} HasExt(f: ScannedFile, ext: string)
    requires '.' !in ext
    ensures f.filename[ExtStart(f.filename)..] == "." + ext <==> EndsIn(f.filename, "." + ext)
  {
    var s, n := f.filename, ExtStart(f.filename);
    if s[n..] == "." + ext {
      assert s == s[..n] + ("." + ext);
    }
    if EndsIn(s, "." + ext) {
      var stem :| s == stem + ("." + ext);
      assert s == stem + "." + ext;
      ExtStartIs(stem, ext);
      assert s[|stem|..] == "." + ext;
    }
  }

  lemma {:induction false} KindIs(f: ScannedFile)
    ensures KindOf(f) == Metadata <==> IsMetadataName(f.filename)
    ensures KindOf(f) == Source <==> IsSourceName(f.filename)
  {
    hide ExtStart, EndsIn;
    HasExt(f, "yaml");
    HasExt(f, "yml");
    HasExt(f, "sql");
    HasExt(f, "js");
    assert "." + "yaml" == ".yaml" && "." + "yml" == ".yml" && "." + "sql" == ".sql" && "." + "js" == ".js";
    assert ".sql"[1] == 's' && ".js"[1] == 'j' && ".yaml"[1] == ".yml"[1] == 'y';
  }

  // Two files of plain names are twins exactly when they share directory and name.
  lemma {:induction false} TwinsShareKey(f: ScannedFile, g: ScannedFile)
    requires PlainName(NameOf(f)) && PlainName(NameOf(g))
    ensures KeyOf(f) == KeyOf(g) <==> f.dir == g.dir && NameOf(f) == NameOf(g)
  {
    hide NameOf;
    assert KeyOf(f)[..|f.dir|] == f.dir && KeyOf(f)[|f.dir|] == NameOf(f);
    assert KeyOf(g)[..|g.dir|] == g.dir && KeyOf(g)[|g.dir|] == NameOf(g);
  }

  // A file with no name, or a dot, has the key of the twins one directory up, and one
  // called .. that of those two up.
  lemma {:induction false} OddNamesShareKey(f: ScannedFile, g: ScannedFile)
    requires PlainName(NameOf(g))
    ensures NameOf(f) == "" || NameOf(f) == "." ==> (KeyOf(f) == KeyOf(g) <==> f.dir == g.dir + [NameOf(g)])
    ensures NameOf(f) == ".." ==> (KeyOf(f) == KeyOf(g) <==> exists last :: f.dir == g.dir + [NameOf(g)] + [last])
  {
    hide NameOf;
    var key := g.dir + [NameOf(g)];
    assert key[|g.dir|] == NameOf(g);
    if NameOf(f) == ".." && f.dir != [] {
      var last := f.dir[|f.dir| - 1];
      assert f.dir == f.dir[..|f.dir| - 1] + [last];
      forall x | f.dir == key + [x] ensures f.dir[..|f.dir| - 1] == key {
      }
    }
  }

  ghost predicate FirstOf(files: seq<ScannedFile>, key: Path, i: nat) {
    i < |files| && KeyOf(files[i]) == key && forall j :: 0 <= j < i ==> KeyOf(files[j]) != key
  }

  ghost predicate OnlySourceOf(files: seq<ScannedFile>, key: Path, i: nat) {
    && i < |files| && KeyOf(files[i]) == key && IsSourceName(files[i].filename)
    && forall j :: 0 <= j < |files| && KeyOf(files[j]) == key && IsSourceName(files[j].filename) ==> j == i
  }

  // i is the last metadata file of the key; at |files| there is none.
  ghost predicate LastMetadataOf(files: seq<ScannedFile>, key: Path, i: nat) {
    && i <= |files| && (i < |files| ==> KeyOf(files[i]) == key && IsMetadataName(files[i].filename))
    && forall j :: 0 <= j < |files| && KeyOf(files[j]) == key && IsMetadataName(files[j].filename) ==> j <= i < |files|
  }

  ghost predicate InDirectory(namespace: string, dir: Path) {
    if dir == [] then namespace == "." else namespace == Join(dir, "/")
  }

  // The one source file, and over it the last metadata file if there is one, as the YAML
  // reader gives them; namespace and name are those of the first file.
  ghost predicate BuiltAt(c: Config, files: seq<ScannedFile>, yaml: Yaml, first: nat, source: nat, meta: nat)
    requires first < |files| && source < |files| && meta <= |files|
  {
    && InDirectory(c.namespace, files[first].dir) && c.name == NameOf(files[first])
    && files[source].text.Some?
    && match Interpret(files[source].text.value, files[source].filename, yaml)
       case Parsed(config) =>
         if meta == |files| then TakenFrom(c, config, None)
         else
           && files[meta].text.Some? && yaml(files[meta].text.value, EMPTY).Some?
           && TakenFrom(c, config, yaml(files[meta].text.value, EMPTY))
       case _ => false
  }

  ghost predicate BuiltFrom(c: Config, files: seq<ScannedFile>, key: Path, yaml: Yaml) {
    exists first, source, meta ::
      && FirstOf(files, key, first) && OnlySourceOf(files, key, source) && LastMetadataOf(files, key, meta)
      && BuiltAt(c, files, yaml, first, source, meta)
  }

  lemma {:induction false} FirstIndex(files: seq<ScannedFile>, key: Path) returns (i: nat)
    requires WithKey(files, key) != []
    ensures FirstOf(files, key, i) && files[i] == WithKey(files, key)[0]
  {
    hide KeyOf;
    var front, last := files[..|files| - 1], files[|files| - 1];
    assert files == front + [last];
    WithKeySnoc(front, last, key);
    if WithKey(front, key) != [] {
      i := FirstIndex(front, key);
    } else {
      i := |files| - 1;
      forall j | 0 <= j < i ensures KeyOf(files[j]) != key {
        assert files[j] == front[j] && front[j] in front && front[j] !in WithKey(front, key);
      }
    }
  }

  function OfKeyAndKind(files: seq<ScannedFile>, key: Path, kind: Kind): (r: seq<ScannedFile>)
    ensures forall f :: f in r <==> f in files && KeyOf(f) == key && KindOf(f) == kind
  {
    OfKind(WithKey(files, key), kind)
  }

  lemma {:induction false} OfKeyAndKindSnoc(files: seq<ScannedFile>, f: ScannedFile, key: Path, kind: Kind)
    ensures OfKeyAndKind(files + [f], key, kind) ==
            OfKeyAndKind(files, key, kind) + (if KeyOf(f) == key && KindOf(f) == kind then [f] else [])
  {
    hide KeyOf, KindOf, OfKind, WithKey;
    WithKeySnoc(files, f, key);
    OfKindSnoc(WithKey(files, key), f, kind);
    var group := WithKey(files, key);
    assert group + [] == group && OfKind(group, kind) + [] == OfKind(group, kind);
  }

  // Where the last file of a key and kind is, and whether there is another.
  lemma {:induction false} LastIndex(files: seq<ScannedFile>, key: Path, kind: Kind) returns (i: nat)
    requires OfKeyAndKind(files, key, kind) != []
    ensures var found := OfKeyAndKind(files, key, kind);
            && i < |files| && files[i] == found[|found| - 1] && KeyOf(files[i]) == key && KindOf(files[i]) == kind
            && (forall j :: i < j < |files| ==> !(KeyOf(files[j]) == key && KindOf(files[j]) == kind))
            && (|found| == 1 ==> forall j :: 0 <= j < i ==> !(KeyOf(files[j]) == key && KindOf(files[j]) == kind))
  {
    hide KeyOf, KindOf, OfKeyAndKind;
    assert OfKeyAndKind(files, key, kind)[0] in files;
    var front, last := files[..|files| - 1], files[|files| - 1];
    assert files == front + [last];
    OfKeyAndKindSnoc(front, last, key, kind);
    if KeyOf(last) == key && KindOf(last) == kind {
      i := |files| - 1;
      forall j | 0 <= j < i && |OfKeyAndKind(files, key, kind)| == 1 ensures !(KeyOf(files[j]) == key && KindOf(files[j]) == kind) {
        assert files[j] == front[j] && front[j] in front && front[j] !in OfKeyAndKind(front, key, kind);
      }
    } else {
      assert OfKeyAndKind(files, key, kind) == OfKeyAndKind(front, key, kind);
      i := LastIndex(front, key, kind);
    }
  }

  lemma {:induction false} GroupBuiltFrom(files: seq<ScannedFile>, key: Path, yaml: Yaml)
    requires AllLoad(files, yaml) && GroupBuilds(WithKey(files, key), yaml)
    ensures BuiltFrom(Merged(WithKey(files, key), yaml), files, key, yaml)
  {
    hide WithKey, OfKind, KeyOf, KindOf, NameOf, IsMetadataName, IsSourceName, Valid, Interpret, Load, Loads, Merged, InDirectory, TakenFrom;
    var group := WithKey(files, key);
    MergedIs(group, yaml);
    forall f
      ensures KindOf(f) == Metadata <==> IsMetadataName(f.filename)
      ensures KindOf(f) == Source <==> IsSourceName(f.filename)
    {
      KindIs(f);
    }
    var first := FirstIndex(files, key);
    var source := LastIndex(files, key, Source);
    assert OnlySourceOf(files, key, source);
    LoadIs(files[source], yaml);
    var meta := |files|;
    if OfKind(group, Metadata) != [] {
      meta := LastIndex(files, key, Metadata);
      LoadIs(files[meta], yaml);
    } else {
      NoneFound(files, key);
    }
    assert LastMetadataOf(files, key, meta);
    assert BuiltAt(Merged(group, yaml), files, yaml, first, source, meta);
  }

  lemma {:induction false} NoneFound(files: seq<ScannedFile>, key: Path)
    requires OfKind(WithKey(files, key), Metadata) == []
    ensures forall f :: f in files && KeyOf(f) == key ==> KindOf(f) != Metadata
  {
    hide KeyOf, KindOf;
    forall f | f in files && KeyOf(f) == key ensures KindOf(f) != Metadata {
      assert f in WithKey(files, key);
    }
  }

  lemma {:induction false} LoadIs(f: ScannedFile, yaml: Yaml)
    requires Loads(f, yaml) && KindOf(f) != Other
    ensures f.text.Some?
    ensures KindOf(f) == Source ==> Interpret(f.text.value, f.filename, yaml) == Parsed(Load(f, yaml))
    ensures KindOf(f) == Metadata ==> yaml(f.text.value, EMPTY) == Some(Load(f, yaml))
  {
    hide KindOf, Interpret;
  }

  lemma {:induction false} MergedIs(group: seq<ScannedFile>, yaml: Yaml)
    requires group != [] && (forall f :: f in group ==> Loads(f, yaml)) && OfKind(group, Source) != []
    ensures var c, source, metas := Merged(group, yaml), Load(OfKind(group, Source)[0], yaml), OfKind(group, Metadata);
            && InDirectory(c.namespace, group[0].dir) && c.name == NameOf(group[0])
            && TakenFrom(c, source, if metas == [] then None else Some(Load(metas[|metas| - 1], yaml)))
  {
    hide OfKind, KindOf, NameOf, Loads, Load;
  }

  lemma {:induction false} AllBuilt(configs: seq<LogicConfig>, keys: seq<Path>, files: seq<ScannedFile>, yaml: Yaml)
    requires AllLoad(files, yaml) && Done(configs, keys, files, yaml)
    ensures forall i :: 0 <= i < |keys| ==> BuiltFrom(configs[i].Value(), files, keys[i], yaml)
  {
    hide WithKey, GroupBuilds, Merged, BuiltFrom, AllLoad;
    forall i | 0 <= i < |keys| ensures BuiltFrom(configs[i].Value(), files, keys[i], yaml) {
      GroupBuiltFrom(files, keys[i], yaml);
    }
  }

  // All files are built, or none: one config for each key, merged from its files.
  method BuildLogicConfigs(files: seq<ScannedFile>, yaml: Yaml)
    returns (ok: bool, configs: seq<LogicConfig>, ghost keys: seq<Path>)
    ensures ok <==> Buildable(files, yaml)
    ensures ok ==> Distinct(keys) && Elements(keys) == Keys(files)
    ensures ok ==> AllDifferent(configs) && Done(configs, keys, files, yaml)
    ensures ok ==> forall i :: 0 <= i < |keys| ==> BuiltFrom(configs[i].Value(), files, keys[i], yaml)
  {
    hide WithKey, OfKind, KeyOf, KindOf, Describes, Loads, Keys, GroupBuilds, Merged, Separate, Configs, Done, AllLoad, Objects, Apart;
    var entries: Entries;
    configs, keys := [], [];
    ok, entries := CollectEntries(files, yaml);
    if !ok {
      return;
    }
    ghost var owned := Objects(entries);
    var rest := entries.Keys;
    NothingDone(files, yaml);
    NothingPaired(owned);
    assert Halfway(owned, configs, keys, rest);
    hide Halfway;
    while rest != {}
      invariant rest <= entries.Keys && Objects(entries) == owned
      invariant Halfway(owned, configs, keys, rest) && Done(configs, keys, files, yaml)
      invariant forall k :: k in rest ==> Describes(entries[k], WithKey(files, k), yaml)
      decreases |rest|
    {
      var key :| key in rest;
      ObjectAt(entries, key);
      var config := FinishKey(entries, key, rest, configs, keys, files, yaml);
      if config == null {
        return false, [], [];
      }
      var built: LogicConfig := config;
      DoneMore(configs, keys, built, key, files, yaml);
      HalfwayMore(owned, configs, keys, rest, built, key);
      configs, keys := configs + [built], keys + [key];
      rest := rest - {key};
    }
    HalfwayEnds(owned, configs, keys);
    AllDone(configs, keys, files, yaml);
    AllBuilt(configs, keys, files, yaml);
  }

  lemma {:induction false} HalfwayEnds(owned: map<Path, Owned>, configs: seq<LogicConfig>, keys: seq<Path>)
    requires Halfway(owned, configs, keys, {})
    ensures Distinct(keys) && AllDifferent(configs) && Elements(keys) == owned.Keys
  {
  }

  lemma {:induction false} NothingDone(files: seq<ScannedFile>, yaml: Yaml)
    requires AllLoad(files, yaml)
    ensures Done([], [], files, yaml)
  {
  }

  lemma {:induction false} AllDone(configs: seq<LogicConfig>, keys: seq<Path>, files: seq<ScannedFile>, yaml: Yaml)
    requires AllLoad(files, yaml) && Done(configs, keys, files, yaml) && Elements(keys) == Keys(files)
    ensures Buildable(files, yaml)
  {
    hide WithKey, GroupBuilds, Keys;
    forall key | key in Keys(files) ensures GroupBuilds(WithKey(files, key), yaml) {
      assert key in Elements(keys);
    }
  }

  // ---------- the order of the files ----------

  // Files of one key have the same namespace and name.
  ghost predicate OneHome(files: seq<ScannedFile>) {
    forall f, g :: f in files && g in files && KeyOf(f) == KeyOf(g) ==> NamespaceOf(f) == NamespaceOf(g) && NameOf(f) == NameOf(g)
  }

  predicate IsOfKind(f: ScannedFile, kind: Kind, yaml: Yaml) {
    KindOf(f) == kind && Loads(f, yaml)
  }

  // The metadata files of one key all make the same of its source.
  ghost predicate OneOverlay(files: seq<ScannedFile>, yaml: Yaml) {
    forall s, f, g :: s in files && f in files && g in files && KeyOf(s) == KeyOf(f) == KeyOf(g)
      && IsOfKind(s, Source, yaml) && IsOfKind(f, Metadata, yaml) && IsOfKind(g, Metadata, yaml)
      ==> Overlay(Load(s, yaml), Load(f, yaml)) == Overlay(Load(s, yaml), Load(g, yaml))
  }

  predicate PlainName(name: string) {
    name != "" && name != "." && name != ".."
  }

  lemma {:induction false} PlainNamesHaveOneHome(files: seq<ScannedFile>)
    requires forall f :: f in files ==> PlainName(NameOf(f))
    ensures OneHome(files)
  {
    hide NameOf;
    forall f, g | f in files && g in files && KeyOf(f) == KeyOf(g) ensures NamespaceOf(f) == NamespaceOf(g) && NameOf(f) == NameOf(g) {
      var k, l := KeyOf(f), KeyOf(g);
      assert k[..|k| - 1] == f.dir && l[..|l| - 1] == g.dir;
      assert k[|k| - 1] == NameOf(f) && l[|l| - 1] == NameOf(g);
    }
  }

  lemma {:induction false} WithKeyCount(files: seq<ScannedFile>, key: Path, f: ScannedFile)
    ensures multiset(WithKey(files, key))[f] == if KeyOf(f) == key then multiset(files)[f] else 0
  {
    hide KeyOf;
    if files != [] {
      var front, last := files[..|files| - 1], files[|files| - 1];
      assert files == front + [last];
      WithKeyCount(front, key, f);
      WithKeySnoc(front, last, key);
    }
  }

  lemma {:induction false} OfKindCount(files: seq<ScannedFile>, kind: Kind, f: ScannedFile)
    ensures multiset(OfKind(files, kind))[f] == if KindOf(f) == kind then multiset(files)[f] else 0
  {
    hide KindOf;
    if files != [] {
      var front, last := files[..|files| - 1], files[|files| - 1];
      assert files == front + [last];
      OfKindCount(front, kind, f);
      OfKindSnoc(front, last, kind);
    }
  }

  lemma {:induction false} WithKeyPermuted(files: seq<ScannedFile>, other: seq<ScannedFile>, key: Path)
    requires multiset(files) == multiset(other)
    ensures multiset(WithKey(files, key)) == multiset(WithKey(other, key))
  {
    hide WithKey, KeyOf;
    forall f ensures multiset(WithKey(files, key))[f] == multiset(WithKey(other, key))[f] {
      WithKeyCount(files, key, f);
      WithKeyCount(other, key, f);
    }
  }

  lemma {:induction false} OfKindPermuted(files: seq<ScannedFile>, other: seq<ScannedFile>, kind: Kind)
    requires multiset(files) == multiset(other)
    ensures multiset(OfKind(files, kind)) == multiset(OfKind(other, kind))
    ensures |OfKind(files, kind)| == |OfKind(other, kind)|
    ensures |OfKind(files, kind)| <= 1 ==> OfKind(files, kind) == OfKind(other, kind)
  {
    hide OfKind, KindOf;
    forall f ensures multiset(OfKind(files, kind))[f] == multiset(OfKind(other, kind))[f] {
      OfKindCount(files, kind, f);
      OfKindCount(other, kind, f);
    }
    var a, b := OfKind(files, kind), OfKind(other, kind);
    assert multiset(a) == multiset(b);
    assert |a| == |multiset(a)| && |b| == |multiset(b)|;
    if |a| == 1 {
      assert a[0] in multiset(b);
      assert a == [a[0]] && b == [b[0]];
    }
  }

  lemma {:induction false} SameElements(files: seq<ScannedFile>, other: seq<ScannedFile>)
    requires multiset(files) == multiset(other)
    ensures forall f :: f in files <==> f in other
    ensures |files| == |other|
  {
    assert forall f :: f in files <==> f in multiset(files);
    assert forall f :: f in other <==> f in multiset(other);
    assert |files| == |multiset(files)| == |multiset(other)| == |other|;
  }

  // The last metadata file of a group decides, and with one overlay any other would
  // decide the same.
  lemma {:induction false} SameOverlay(group: seq<ScannedFile>, other: seq<ScannedFile>, yaml: Yaml)
    requires multiset(group) == multiset(other) && AllLoad(group, yaml) && AllLoad(other, yaml)
    requires |OfKind(group, Source)| == 1 && OfKind(other, Source) == OfKind(group, Source)
    requires OneOverlay(group, yaml) && forall f, g :: f in group && g in group ==> KeyOf(f) == KeyOf(g)
    ensures Overlaid(group, yaml) == Overlaid(other, yaml)
  {
    hide OfKind, KindOf, KeyOf, Loads, Load, Overlay;
    SameElements(group, other);
    OfKindPermuted(group, other, Metadata);
    var metas, others := OfKind(group, Metadata), OfKind(other, Metadata);
    var source := OfKind(group, Source)[0];
    assert source in OfKind(group, Source);
    if metas != [] {
      var f, g := metas[|metas| - 1], others[|others| - 1];
      assert f in metas && g in others;
      assert IsOfKind(source, Source, yaml) && IsOfKind(f, Metadata, yaml) && IsOfKind(g, Metadata, yaml);
    }
  }

  lemma {:induction false} GroupsAgree(group: seq<ScannedFile>, other: seq<ScannedFile>, yaml: Yaml)
    requires multiset(group) == multiset(other) && AllLoad(group, yaml)
    requires OneOverlay(group, yaml) && OneHome(group) && forall f, g :: f in group && g in group ==> KeyOf(f) == KeyOf(g)
    ensures AllLoad(other, yaml)
    ensures GroupBuilds(group, yaml) <==> GroupBuilds(other, yaml)
    ensures GroupBuilds(group, yaml) ==> Merged(group, yaml) == Merged(other, yaml)
  {
    hide OfKind, KindOf, KeyOf, NameOf, NamespaceOf, Loads, Load, Valid, Overlay, OneOverlay;
    SameElements(group, other);
    OfKindPermuted(group, other, Source);
    if group != [] {
      assert group[0] in group && other[0] in group;
      if |OfKind(group, Source)| == 1 {
        SameOverlay(group, other, yaml);
      }
    }
  }

  // Both scans fail, or both build the same config for each key.
  ghost predicate SameBuild(files: seq<ScannedFile>, other: seq<ScannedFile>, yaml: Yaml) {
    && (Buildable(files, yaml) <==> Buildable(other, yaml))
    && Keys(files) == Keys(other)
    && (Buildable(files, yaml) ==>
          forall key :: key in Keys(files) ==> Merged(WithKey(files, key), yaml) == Merged(WithKey(other, key), yaml))
  }

  // Scanned in any order, files of one home and one overlay give the same success or
  // failure, and on success the same config for each key.
  lemma {:induction false} AnyOrderBuildsTheSame(files: seq<ScannedFile>, other: seq<ScannedFile>, yaml: Yaml)
    requires multiset(files) == multiset(other)
    requires OneHome(files) && OneOverlay(files, yaml)
    ensures SameBuild(files, other, yaml)
  {
    hide WithKey, OfKind, KeyOf, NameOf, NamespaceOf, Loads, Merged, Valid, OneOverlay, OneHome;
    SameElements(files, other);
    assert Keys(files) == Keys(other);
    if AllLoad(files, yaml) {
      forall key | key in Keys(files)
        ensures GroupBuilds(WithKey(files, key), yaml) <==> GroupBuilds(WithKey(other, key), yaml)
        ensures GroupBuilds(WithKey(files, key), yaml) ==> Merged(WithKey(files, key), yaml) == Merged(WithKey(other, key), yaml)
      {
        WithKeyPermuted(files, other, key);
        GroupIsOne(files, key, yaml);
        GroupsAgree(WithKey(files, key), WithKey(other, key), yaml);
      }
    }
  }

  lemma {:induction false} GroupIsOne(files: seq<ScannedFile>, key: Path, yaml: Yaml)
    requires OneHome(files) && OneOverlay(files, yaml)
    ensures OneHome(WithKey(files, key)) && OneOverlay(WithKey(files, key), yaml)
  {
    hide WithKey, KeyOf, KindOf, NameOf, NamespaceOf, Overlay, Loads, Load;
    var group := WithKey(files, key);
    forall s, f, g | s in group && f in group && g in group && KeyOf(s) == KeyOf(f) == KeyOf(g)
                     && IsOfKind(s, Source, yaml) && IsOfKind(f, Metadata, yaml) && IsOfKind(g, Metadata, yaml)
      ensures Overlay(Load(s, yaml), Load(f, yaml)) == Overlay(Load(s, yaml), Load(g, yaml))
    {
      assert s in files && f in files && g in files;
    }
  }

  // ---------- ... and exactly then ----------

  ghost predicate AnyOrder(files: seq<ScannedFile>, yaml: Yaml) {
    forall other :: multiset(other) == multiset(files) ==> SameBuild(files, other, yaml)
  }

  // The files with one of them taken out.
  function Minus(files: seq<ScannedFile>, i: nat): seq<ScannedFile>
    requires i < |files|
  {
    files[..i] + files[i + 1..]
  }

  lemma {:induction false} MinusPermutes(files: seq<ScannedFile>, i: nat)
    requires i < |files|
    ensures multiset([files[i]] + Minus(files, i)) == multiset(files)
    ensures multiset(Minus(files, i) + [files[i]]) == multiset(files)
  {
    assert files == files[..i] + [files[i]] + files[i + 1..];
  }

  lemma {:induction false} FirstOfKey(f: ScannedFile, rest: seq<ScannedFile>)
    ensures WithKey([f] + rest, KeyOf(f)) != [] && WithKey([f] + rest, KeyOf(f))[0] == f
    decreases |rest|
  {
    hide KeyOf;
    if rest == [] {
      assert [f] + rest == [] + [f];
      WithKeySnoc([], f, KeyOf(f));
      NoKeys(KeyOf(f));
    } else {
      var front, last := rest[..|rest| - 1], rest[|rest| - 1];
      assert [f] + rest == ([f] + front) + [last];
      FirstOfKey(f, front);
      WithKeySnoc([f] + front, last, KeyOf(f));
    }
  }

  // A file with another home than the first of its key, scanned first, changes the home.
  lemma {:induction false} HomeMatters(files: seq<ScannedFile>, f: ScannedFile, yaml: Yaml)
    requires Buildable(files, yaml) && f in files
    requires var first := WithKey(files, KeyOf(f))[0]; NamespaceOf(first) != NamespaceOf(f) || NameOf(first) != NameOf(f)
    ensures !AnyOrder(files, yaml)
  {
    hide WithKey, OfKind, KeyOf, NameOf, NamespaceOf, Loads, Load, Valid, Overlay, Overlaid;
    var i :| 0 <= i < |files| && files[i] == f;
    var other := [f] + Minus(files, i);
    MinusPermutes(files, i);
    SameElements(files, other);
    FirstOfKey(f, Minus(files, i));
    var key := KeyOf(f);
    assert key in Keys(files);
    assert GroupBuilds(WithKey(files, key), yaml);
    if Buildable(other, yaml) {
      assert key in Keys(other) && GroupBuilds(WithKey(other, key), yaml);
      assert Merged(WithKey(files, key), yaml) != Merged(WithKey(other, key), yaml);
    }
    assert !SameBuild(files, other, yaml);
  }

  lemma {:induction false} LastMetadata(rest: seq<ScannedFile>, f: ScannedFile)
    requires KindOf(f) == Metadata
    ensures var metas := OfKind(WithKey(rest + [f], KeyOf(f)), Metadata); metas != [] && metas[|metas| - 1] == f
  {
    hide KeyOf, KindOf, WithKey, OfKind;
    WithKeySnoc(rest, f, KeyOf(f));
    OfKindSnoc(WithKey(rest, KeyOf(f)), f, Metadata);
  }

  // A metadata file with another overlay than the last of its key, scanned last,
  // changes the config.
  lemma {:induction false} OverlayMatters(files: seq<ScannedFile>, f: ScannedFile, yaml: Yaml)
    requires Buildable(files, yaml) && f in files && KindOf(f) == Metadata
    requires var group := WithKey(files, KeyOf(f));
             group != [] && AllLoad(group, yaml) && OfKind(group, Source) != [] && Loads(f, yaml)
             && Overlay(Load(OfKind(group, Source)[0], yaml), Load(f, yaml)) != Overlaid(group, yaml)
    ensures !AnyOrder(files, yaml)
  {
    hide WithKey, OfKind, KeyOf, KindOf, NameOf, NamespaceOf, Loads, Load, Valid;
    var i :| 0 <= i < |files| && files[i] == f;
    var other := Minus(files, i) + [f];
    MinusPermutes(files, i);
    SameElements(files, other);
    LastMetadata(Minus(files, i), f);
    var key := KeyOf(f);
    assert key in Keys(files);
    assert GroupBuilds(WithKey(files, key), yaml);
    WithKeyPermuted(files, other, key);
    OfKindPermuted(WithKey(files, key), WithKey(other, key), Source);
    if Buildable(other, yaml) {
      assert key in Keys(other) && GroupBuilds(WithKey(other, key), yaml);
      var source := Load(OfKind(WithKey(files, key), Source)[0], yaml);
      assert Overlaid(WithKey(other, key), yaml) == Overlay(source, Load(f, yaml));
      OverlaidFields(WithKey(files, key), yaml);
      OverlaidFields(WithKey(other, key), yaml);
      assert Merged(WithKey(files, key), yaml) != Merged(WithKey(other, key), yaml);
    }
    assert !SameBuild(files, other, yaml);
  }

  // Only namespace and name are put over the overlaid source, which has the source's own.
  lemma {:induction false} OverlaidFields(group: seq<ScannedFile>, yaml: Yaml)
    requires group != [] && AllLoad(group, yaml) && OfKind(group, Source) != []
    ensures var source := Load(OfKind(group, Source)[0], yaml);
            Overlaid(group, yaml) == Merged(group, yaml).(namespace := source.namespace, name := source.name)
  {
    hide OfKind, KindOf, NameOf, NamespaceOf, Loads, Load;
  }

  // For files that build in the order scanned.
  lemma {:induction false} OtherOrders(files: seq<ScannedFile>, yaml: Yaml)
    requires Buildable(files, yaml)
    ensures AnyOrder(files, yaml) <==> OneHome(files) && OneOverlay(files, yaml)
  {
    hide WithKey, OfKind, KeyOf, KindOf, NameOf, NamespaceOf, Loads, Load, Overlay, Overlaid, Valid, SameBuild;
    if OneHome(files) && OneOverlay(files, yaml) {
      forall other | multiset(other) == multiset(files) ensures SameBuild(files, other, yaml) {
        AnyOrderBuildsTheSame(files, other, yaml);
      }
    } else if !OneHome(files) {
      var f, g :| f in files && g in files && KeyOf(f) == KeyOf(g) && (NamespaceOf(f) != NamespaceOf(g) || NameOf(f) != NameOf(g));
      KeyHasGroup(files, KeyOf(f));
      var first := WithKey(files, KeyOf(f))[0];
      if NamespaceOf(first) != NamespaceOf(f) || NameOf(first) != NameOf(f) {
        HomeMatters(files, f, yaml);
      } else {
        HomeMatters(files, g, yaml);
      }
    } else {
      var s, f, g :| s in files && f in files && g in files && KeyOf(s) == KeyOf(f) == KeyOf(g)
        && IsOfKind(s, Source, yaml) && IsOfKind(f, Metadata, yaml) && IsOfKind(g, Metadata, yaml)
        && Overlay(Load(s, yaml), Load(f, yaml)) != Overlay(Load(s, yaml), Load(g, yaml));
      OverlaysDiffer(files, s, f, g, yaml);
    }
  }

  lemma {:induction false} OverlaysDiffer(files: seq<ScannedFile>, s: ScannedFile, f: ScannedFile, g: ScannedFile, yaml: Yaml)
    requires Buildable(files, yaml) && s in files && f in files && g in files && KeyOf(s) == KeyOf(f) == KeyOf(g)
    requires IsOfKind(s, Source, yaml) && IsOfKind(f, Metadata, yaml) && IsOfKind(g, Metadata, yaml)
    requires Overlay(Load(s, yaml), Load(f, yaml)) != Overlay(Load(s, yaml), Load(g, yaml))
    ensures !AnyOrder(files, yaml)
  {
    hide WithKey, OfKind, KeyOf, NameOf, NamespaceOf, Loads, Load, Overlay, Overlaid, Valid, AnyOrder, KindOf;
    var key := KeyOf(f);
    var group := WithKey(files, key);
    assert key in Keys(files);
    assert GroupBuilds(group, yaml);
    assert s in OfKind(group, Source);
    assert OfKind(group, Source) == [s];
    if Overlay(Load(s, yaml), Load(f, yaml)) != Overlaid(group, yaml) {
      OverlayMatters(files, f, yaml);
    } else {
      OverlayMatters(files, g, yaml);
    }
  }

  lemma {:induction false} SameBuildJoins(files: seq<ScannedFile>, a: seq<ScannedFile>, b: seq<ScannedFile>, yaml: Yaml)
    requires SameBuild(files, a, yaml) && SameBuild(files, b, yaml)
    ensures SameBuild(a, b, yaml)
  {
    hide WithKey, OfKind, Loads, Merged, Valid, KeyOf;
  }

  lemma {:induction false} ConditionsPermute(files: seq<ScannedFile>, other: seq<ScannedFile>, yaml: Yaml)
    requires multiset(files) == multiset(other)
    ensures OneHome(files) == OneHome(other) && OneOverlay(files, yaml) == OneOverlay(other, yaml)
  {
    hide KeyOf, KindOf, NameOf, NamespaceOf, Overlay, Loads, Load;
    SameElements(files, other);
  }

  // For files that build in some order: every order gives the same outcome and the
  // same configs if and only if the files of a key share namespace and name, and its
  // metadata files all make the same of its source. Files that build in no order fail
  // in every one.
  lemma {:induction false} OrderDoesNotMatter(files: seq<ScannedFile>, built: seq<ScannedFile>, yaml: Yaml)
    requires multiset(built) == multiset(files) && Buildable(built, yaml)
    ensures AnyOrder(files, yaml) <==> OneHome(files) && OneOverlay(files, yaml)
  {
    hide SameBuild, OneHome, OneOverlay, Buildable;
    ConditionsPermute(files, built, yaml);
    OtherOrders(built, yaml);
    if OneHome(files) && OneOverlay(files, yaml) {
      forall other | multiset(other) == multiset(files) ensures SameBuild(files, other, yaml) {
        AnyOrderBuildsTheSame(files, other, yaml);
      }
    } else {
      var other :| multiset(other) == multiset(built) && !SameBuild(built, other, yaml);
      if AnyOrder(files, yaml) {
        assert SameBuild(files, built, yaml) && SameBuild(files, other, yaml);
        SameBuildJoins(files, built, other, yaml);
        assert false;
      }
    }
  }

  // Two metadata files of one key that name different targets: some other order fails
  // or builds another config.
  lemma {:induction false} TwoMetadataFilesMatter(files: seq<ScannedFile>, meta: ScannedFile, twin: ScannedFile, yaml: Yaml)
    requires Buildable(files, yaml) && meta in files && twin in files && KeyOf(meta) == KeyOf(twin)
    requires IsOfKind(meta, Metadata, yaml) && IsOfKind(twin, Metadata, yaml)
    requires Load(meta, yaml).target != "" && Load(twin, yaml).target != "" && Load(meta, yaml).target != Load(twin, yaml).target
    ensures !AnyOrder(files, yaml)
  {
    hide WithKey, OfKind, KeyOf, Loads, Load, Merged, Valid, AnyOrder, KindOf;
    var group := WithKey(files, KeyOf(meta));
    assert KeyOf(meta) in Keys(files);
    assert GroupBuilds(group, yaml);
    var source := OfKind(group, Source)[0];
    assert source in OfKind(group, Source);
    OverlaysDiffer(files, source, meta, twin, yaml);
  }

  lemma {:induction false} TwoFiles(a: ScannedFile, b: ScannedFile)
    requires KeyOf(a) == KeyOf(b)
    ensures Keys([a, b]) == {KeyOf(a)} && WithKey([a, b], KeyOf(a)) == [a, b]
  {
    hide KeyOf, WithKey;
    var key := KeyOf(a);
    NoKeys(key);
    assert [] + [a] == [a] && [a] + [b] == [a, b];
    WithKeySnoc([], a, key);
    WithKeySnoc([a], b, key);
    hide Keys;
    KeysSnoc([], a);
    KeysSnoc([a], b);
  }

  lemma {:induction false} NoKeys(key: Path)
    ensures Keys([]) == {} && WithKey([], key) == []
  {
  }

  lemma {:induction false} NamelessByKey(source: ScannedFile, meta: ScannedFile, yaml: Yaml)
    requires KindOf(source) == Source && KindOf(meta) == Metadata
    requires NameOf(meta) == "" && KeyOf(source) == KeyOf(meta)
    requires Loads(source, yaml) && Loads(meta, yaml)
    ensures !Buildable([meta, source], yaml)
    ensures Buildable([source, meta], yaml) <==>
            Valid(Overlay(Load(source, yaml), Load(meta, yaml)).(namespace := NamespaceOf(source), name := NameOf(source)))
  {
    hide NamespaceOf, KindOf, Overlay, Load, Loads, WithKey, KeyOf;
    var key := KeyOf(meta);
    TwoFiles(meta, source);
    TwoFiles(source, meta);
    assert TrimSpace("") == "";
    assert !GroupBuilds([meta, source], yaml);
    assert key in Keys([meta, source]);
    OfKindPair(source, meta);
  }

  // A metadata file with no name, such as a/b/.yaml, has the key of a/b.sql: scanned
  // after it the file is its metadata, scanned before it the build fails.
  lemma {:induction false} NamelessMetadataMatters(source: ScannedFile, meta: ScannedFile, yaml: Yaml)
    requires KindOf(source) == Source && KindOf(meta) == Metadata
    requires NameOf(meta) == "" && PlainName(NameOf(source)) && meta.dir == source.dir + [NameOf(source)]
    requires Loads(source, yaml) && Loads(meta, yaml)
    ensures !Buildable([meta, source], yaml)
    ensures Buildable([source, meta], yaml) <==>
            Valid(Overlay(Load(source, yaml), Load(meta, yaml)).(namespace := NamespaceOf(source), name := NameOf(source)))
  {
    OddNamesShareKey(meta, source);
    hide *;
    NamelessByKey(source, meta, yaml);
  }

  lemma {:induction false} OfKindPair(source: ScannedFile, meta: ScannedFile)
    requires KindOf(source) == Source && KindOf(meta) == Metadata
    ensures OfKind([source, meta], Source) == [source] && OfKind([source, meta], Metadata) == [meta]
  {
    hide OfKind, KindOf;
    NoneOfKind(Source);
    NoneOfKind(Metadata);
    assert [source, meta] == ([] + [source]) + [meta];
    OfKindSnoc([], source, Source);
    OfKindSnoc([], source, Metadata);
    OfKindSnoc([] + [source], meta, Source);
    OfKindSnoc([] + [source], meta, Metadata);
  }
}
