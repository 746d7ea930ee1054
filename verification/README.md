# A verified model of Santokit's core

This project models the four parts of Santokit whose behaviour is worth proving, and proves it for all
inputs, all reachable states and all runs. `dafny verify dfyconfig.toml` checks everything.

1. **Auto-CRUD with row-level security.** `Permissions.dfy` decides who may do what (built-in roles, the
   owner rule, column prefixes, the column filter), `AccessRules.dfy` says the same as rules about roles and
   prefixes. `SqlText.dfy` holds the SQL texts the handlers emit.
   `Sql.dfy` is an independent reading of such texts: a lexer, a parser and an evaluator in which `$i` reads
   the i-th value of the list. `SqlRoundTrip.dfy` proves that every emitted text parses to the intended
   statement, `Crud.dfy` that running text and values means the direct operation on rows,
   `RowOrder.dfy` which rows a select answers, in which order.
   `Isolation.dfy` and `RoleMonotonicity.dfy` prove what the permissions are for, over whole runs of requests.
2. **Publication and the edge caches.** `Registry.dfy` is a push as ordered single-key writes,
   `EdgeServer.dfy` the loading of a bundle through a cache that is never invalidated, `Publication.dfy` the
   system of one publisher and any number of servers, in any interleaving. `Canonical.dfy` proves the
   canonical serializer of parameters injective up to key order, with a decoder; `ResponseCache.dfy` builds
   the soundness of the response cache on it.
3. **The type generator.** `TypeDecls.dfy` prints and parses declarations, `TypeGenerator.dfy` builds the
   namespace trie on the heap and prints it in sorted order, `TypeNamespaces.dfy` says where a bundle is
   declared and how, by the text of its namespace, `TypeOrder.dfy` when the text is determined by the bundles
   alone.
4. **Rewriters, merges and the local schema machine.** `Rebind.dfy` and `PrepareSql.dfy` rewrite
   placeholders (`Positional.dfy` says how a driver reads the result), `LogicParser.dfy` splits front matter,
   `LogicConfigs.dfy` merges source and metadata files, `SchemaService.dfy` plans and applies schemas
   without a database. `GoStrings.dfy`, `Order.dfy`, `Lexer.dfy` and `Text.dfy` hold what several share;
   `Encodings.dfy` proves that the string orders are those of UTF-8 and UTF-16.

Imperative code of the repository is a method with its loop, or a class with its fields, and is proved
against a specification function or relation; the properties are lemmas about those. Where a loop of
the source has a long body, one round of it is a method of its own. Where a promised
property is false of the code, a lemma says when it holds, exactly where that is within reach of a caller's
check, and another gives inputs that break it.

## What the proofs found

- Keys are not escaped by `stableStringify`: a key with a double quote and a colon after it can make two
  different parameter objects share a text, and so a cache entry (`Canonical.QuotedKeysCollide`,
  `ResponseCache.QuotedParamsShareEntry`). Injectivity is proved for keys without that pair.
- A server's cached loads agree with cold lookups exactly when the `latest` document agrees with the single
  keys it overlaps and every entry the server has cached already is what a cold load shows
  (`Publication.CacheTransparent`, and `Publication.TransparentServer` for every server of every run). Between
  pushes of manifests with no `:` in namespaces and names and no `/` in names the documents agree, so only the
  second condition is left (`Publication.TransparentBetweenPushes`): it holds for a server that starts then
  (`Publication.ColdServerIsTransparent`), and fails for one that loaded a bundle before the bundle was pushed
  again with new content, since nothing invalidates its entry (`Publication.WarmServerGoesStale`). During a
  push a third condition is that every bundle whose own key is in the store already has its new content there
  (`Publication.TransparentDuringPush`, with the run `Publication.TransparentAfterRepush`).
- The owner filter overrides a client's value for the owner column, so it does not only narrow a query.
  Dropping the filter hides no row exactly when the where map does not name the owner column, names it with
  the user's own id, or asks another column to equal null and so matches nothing
  (`RoleMonotonicity.UnfilteredShowsMore`). For such where maps more roles never show fewer rows, and
  without limit and offset never take a row away (`RoleMonotonicity.SelectMonotone`); with a limit the rows
  shown can be others (`RoleMonotonicity.LimitCanHideRows`). For another where map the same user as an admin
  sees less (`RoleMonotonicity.NamingTheOwnerColumnCanShrink`).
- At column level `owner` is only a role string: owning the row does not show `s_` columns
  (`RoleMonotonicity.SensitiveColumnsNeedARole`), although the documentation lets the owner see them.
- `RETURNING *` is not filtered: a mutation returns just the rows it touches, whole
  (`RoleMonotonicity.MutationsReturnTouched`), so it returns a c_ or p_ column exactly when such a row has one,
  or it touches a row and writes one (`RoleMonotonicity.MutationsReturnRestricted`), though select-all hides
  it from the same user (`RoleMonotonicity.MutationsReturnHidden`, `RoleMonotonicity.DeletingShowsPin`).
- The generated types are determined by the bundles, whatever their order in the manifest and however
  `sort.Slice` orders equal names, exactly when bundles that share namespace and name share their parameters
  (`TypeOrder.TextIsDetermined`, for identifier names).
- `Rebind` keeps binding exactly for queries with no `$` or `?` directly before a digit
  (`Rebind.RebindKeepsBinding`), `prepareSql` exactly for templates with no `$` before a digit
  (`PrepareSql.PrepareKeepsBinding`). `intToString` panics from 10^16 on (`Rebind.IntToString`).
- `ParseLogicFile` panics on a text that starts with `/*/`: the comment it slices ends before it starts
  (`LogicParser.SliceOutOfRange`).
- Logic files that build in some order build the same in every order exactly when the files of one key
  share namespace and name and its metadata files all make the same of its source
  (`LogicConfigs.OrderDoesNotMatter`). Two metadata files with different targets break it
  (`LogicConfigs.TwoMetadataFilesMatter`), and so does a file with no name before its extension, because
  `filepath.Join` gives `a/b/.yaml` the key of `a/b.sql` (`LogicConfigs.NamelessMetadataMatters`).
- A schema plan that reports no changes keeps the project's schemas exactly when the aliases it leaves out
  are blank (`SchemaService.QuietPlanKeepsSchemas`), and keeps the answers of `GetState` exactly when it has
  just the project's aliases (`SchemaService.QuietPlanKeepsAnswers`): leaving an alias out, or adding a blank
  one, is reported as no change and changes the state (`SchemaService.DroppedAliasIsNoChange`,
  `SchemaService.BlankAliasIsNoChange`).

## Model

| member | source | states |
|---|---|---|
| `Permissions.FilterColumns` | packages/bridge/src/runtime/permission-checker.ts:149-184 | the loop's allowed and denied lists are the columns of each verdict, in order |
| `Permissions.FilterPartitions` | packages/bridge/src/runtime/permission-checker.ts:149-184 | allowed, denied and silently hidden columns interleave to the input in order, no column is in two of them, and nothing is hidden when columns are named |
| `Permissions.OpenSelectionHidesCritical` | packages/bridge/src/runtime/permission-checker.ts:163-172 | select-all yields a c_ or p_ column only to a user with the admin role, under any config |
| `Permissions.RecheckIsTableCheck` | packages/bridge/src/runtime/crud.ts:107-125 | checking the filtered columns again for select gives just the table verdict |
| `Permissions.NoneDenied` | packages/bridge/src/runtime/permission-checker.ts:114-144 | the first-denied scan finds nothing if and only if every column is allowed |
| `Permissions.CheckTableMonotone` | packages/bridge/src/runtime/permission-checker.ts:39-70 | more roles, or authenticating, never turn an allowed operation into a denied one, and the row filter goes or stays |
| `Permissions.ColumnAllowedMonotone` | packages/bridge/src/runtime/permission-checker.ts:75-109 | nor an allowed column into a denied one |
| `Permissions.KeptColumnsMonotone` | packages/bridge/src/runtime/permission-checker.ts:149-184 | more roles never drop a column from select-all and never make a named selection denied |
| `AccessRules.OwnEntryDecides` | packages/bridge/src/runtime/permissions.ts:53-67 | when the table's own entry lists roles for the operation, that list decides whatever `_default` says: all rows for who holds a role of it other than owner, their own rows for every other user when it has owner, nothing for anyone else |
| `AccessRules.DefaultEntryDecides` | packages/bridge/src/runtime/permissions.ts:53-67 | when the table's entry is missing or silent, the list of `_default` decides in the same way |
| `AccessRules.BuiltInDecides` | packages/bridge/src/runtime/permissions.ts:53-67 | with neither, every user selects and inserts, admins update all rows and other users their own, only admins delete |
| `AccessRules.TableRule` | packages/bridge/src/runtime/permission-checker.ts:39-70 | an operation on a table is allowed if and only if the list that applies admits the user by a role or as an owner |
| `AccessRules.ColumnRule` | packages/bridge/src/runtime/permission-checker.ts:75-109 | a column is allowed if and only if its own entry's list is missing or held, or without an entry its prefix rule says so |
| `AccessRules.ShownColumns` | packages/bridge/src/runtime/permission-checker.ts:149-184 | a select keeps a column if and only if it is open to the user and, for select-all, not a c_ or p_ column of a non-admin |
| `AccessRules.SentIffPermitted` | packages/bridge/src/runtime/crud.ts:97-260 | a text is sent to the database for exactly the requests whose table is open to the user and whose named or written columns all are |
| `AccessRules.RefusedBecause` | packages/bridge/src/runtime/crud.ts:116-125 | the reason of a refusal names the operation and the table, or the first column that is closed, or all closed columns that were named |
| `Sql.Database.Query` | packages/bridge/src/runtime/crud.ts:146 | a query returns the rows and leaves the tables its text and values mean, or fails and changes nothing |
| `SqlRoundTrip.SelectRoundTrip` | packages/bridge/src/runtime/crud.ts:130-144 | the SELECT text parses to its columns, table, where bindings `$1`.., order, limit and offset; a limit or offset of 0 leaves no clause, a negative one or an empty column list is no statement |
| `SqlRoundTrip.InsertRoundTrip` | packages/bridge/src/runtime/crud.ts:172-181 | the INSERT text parses to the data's columns with `$1`..`$n` |
| `SqlRoundTrip.UpdateRoundTrip` | packages/bridge/src/runtime/crud.ts:212-226 | the UPDATE text parses to SET bindings from `$1` and WHERE bindings from the number after them |
| `SqlRoundTrip.DeleteRoundTrip` | packages/bridge/src/runtime/crud.ts:250-257 | the DELETE text parses to its where bindings |
| `SqlRoundTrip.OtherNamesRefused` | packages/bridge/src/runtime/crud.ts:250-257 | with a table name that is one word but reserved, capitalized, or with a dollar or a leading digit, the DELETE text is no statement |
| `Crud.SelectMeaning` | packages/bridge/src/runtime/crud.ts:130-146 | running the SELECT text with its values is filtering, ordering, cutting and projecting the rows directly over the where map |
| `Crud.InsertMeaning` | packages/bridge/src/runtime/crud.ts:172-183 | running the INSERT text is adding the row the data describes |
| `Crud.UpdateMeaning` | packages/bridge/src/runtime/crud.ts:212-228 | running the UPDATE text with SET values then WHERE values is patching just the matching rows, each `$i` reading its own column's value |
| `Crud.DeleteMeaning` | packages/bridge/src/runtime/crud.ts:250-259 | running the DELETE text is removing just the matching rows |
| `Crud.SelectedFrom` | packages/bridge/src/runtime/crud.ts:130-146 | every selected row is the projection of a row of the table that matches the where map |
| `Crud.AllSelected` | packages/bridge/src/runtime/crud.ts:130-146 | without limit and offset every matching row is selected |
| `RowOrder.SelectedInOrder` | packages/bridge/src/runtime/crud.ts:130-146 | the answer is the window, by offset and limit, of one arrangement of the matching rows, each as often as the table has it, in which no row comes before one to its left by the first order term that tells them apart; each row is shown by the selected columns it has |
| `RowOrder.MatchesWhen` | packages/bridge/src/runtime/crud.ts:61-77 | a row matches the where map if and only if it has each named column with just that value, null matching nothing |
| `Crud.CompiledMeaning` | packages/bridge/src/runtime/crud.ts:97-260 | for plain names, running the text and values a request is compiled to, after its checks and with the owner filter merged in, is the direct reading of the request |
| `Crud.SelectServed` | packages/bridge/src/runtime/crud.ts:104-128 | filtering columns, checking again and filtering rows in the handler's order gives the compiled request |
| `Crud.BuildWhereClause` | packages/bridge/src/runtime/crud.ts:61-77 | the loop yields the WHERE text numbered from the start index and the values in the same order |
| `Crud.HandleSelect` | packages/bridge/src/runtime/crud.ts:97-147 | whatever the names, the handler answers by running the compiled text; for plain names that is the direct reading, and no table changes |
| `Crud.HandleInsert` | packages/bridge/src/runtime/crud.ts:152-184 | the same for insert, with both permission checks |
| `Crud.HandleUpdate` | packages/bridge/src/runtime/crud.ts:189-229 | the same for update, the owner filter merged into the where map |
| `Crud.HandleDelete` | packages/bridge/src/runtime/crud.ts:234-260 | the same for delete |
| `Crud.HandleCrud` | packages/bridge/src/runtime/crud.ts:265-285 | every request is served as its handler serves it |
| `Isolation.PutGuards` | packages/bridge/src/runtime/permission-checker.ts:189-201 | a row that matches the merged where map is owned, whatever the client sent |
| `Isolation.FilterPresent` | packages/bridge/src/runtime/permission-checker.ts:59-64 | who is admitted by no role is a user, admitted with the owner filter on the owner column |
| `Isolation.RlsGuards` | packages/bridge/src/runtime/permission-checker.ts:189-201 | for such a user the merged where map only ever matches owned rows |
| `Isolation.ServeKeepsForeign` | packages/bridge/src/runtime/crud.ts:152-260 | one request of an owner-only caller, read directly, keeps the rows that are not the caller's, in order |
| `Isolation.ServeKeepsColumns` | packages/bridge/src/runtime/crud.ts:97-260 | no request changes the column list of a table |
| `Isolation.PlainRun` | packages/bridge/src/runtime/crud.ts:97-260 | in a run of requests with plain names every next request still has plain names |
| `Isolation.OwnerIsolation` | packages/bridge/src/runtime/crud.ts:97-260 | after any mix of calls of any owner-only users, with plain names and each answered by running its emitted text, every row that none of the callers owned at the start is still there unchanged |
| `Isolation.ReturnsOwnedOnly` | packages/bridge/src/runtime/crud.ts:97-260 | in any such run, what the text of a select, update or delete returns is made from rows its caller owned |
| `RoleMonotonicity.FilterMeaning` | packages/bridge/src/runtime/permission-checker.ts:197-200 | the merged where map holds of a row exactly when the row is owned and satisfies the conditions on the other columns |
| `RoleMonotonicity.UnfilteredShowsMore` | packages/bridge/src/runtime/permission-checker.ts:189-201 | dropping the filter never hides a row, for exactly the where maps that do not name the owner column with another value |
| `RoleMonotonicity.SelectMonotone` | packages/bridge/src/runtime/crud.ts:97-147 | with more roles a select that is answered is still answered for any limit and offset, with at least its columns where rows have a value for every column; for where maps as above it shows at least as many rows, and without limit and offset every row it showed |
| `RoleMonotonicity.NamingTheOwnerColumnCanShrink` | packages/bridge/src/runtime/permission-checker.ts:197-200 | a config, a table and a select naming someone else: the user is answered their own row, the same user as an admin nothing |
| `RoleMonotonicity.LimitCanHideRows` | packages/bridge/src/runtime/crud.ts:134-135 | a config, a table and a select with limit 1: the user is answered their own row, the same user as an admin another one |
| `RoleMonotonicity.SensitiveColumnsNeedARole` | packages/bridge/src/runtime/permission-checker.ts:99-103 | an s_ column without a config entry is readable exactly by a user with the literal role owner or admin |
| `RoleMonotonicity.MutationsReturnTouched` | packages/bridge/src/runtime/crud.ts:152-260 | a row is returned by an answered insert, update or delete if and only if it is what the request makes of a row it touches |
| `RoleMonotonicity.MutationsReturnRestricted` | packages/bridge/src/runtime/crud.ts:180-259 | a c_ or p_ column is returned if and only if a touched row has one, or a row is touched and one is written |
| `RoleMonotonicity.MutationsReturnHidden` | packages/bridge/src/runtime/crud.ts:180-259 | an answered mutation returns every c_ and p_ column of the rows it touches, unchanged unless written, though select-all hides it from a user without the admin role |
| `RoleMonotonicity.DeletingShowsPin` | packages/bridge/src/runtime/crud.ts:234-260 | a config, a table and a user: select-all answers their row without its p_ column, deleting it returns the column |
| `Canonical.RoundTrip` | packages/bridge/src/runtime/server.ts:612-623 | the decoder reads back from the text, and from any continuation of it, what the value means |
| `Canonical.ReadEscape` | packages/bridge/src/runtime/server.ts:613-615 | every character is recovered from its escape (section 7 of RFC 8259) |
| `Canonical.EscapesAre` | packages/bridge/src/runtime/server.ts:613-615 | exactly the quote, the backslash and the control characters are escaped, five of these by a letter and the others by their two hexadecimal digits |
| `Canonical.KeysInOrder` | packages/bridge/src/runtime/server.ts:619-622 | an object is printed by its own keys, sorted, none lost or doubled |
| `Encodings.OrderIsOfUnits` | packages/bridge/src/runtime/server.ts:620 | the orders keys and names are sorted by are those of UTF-16 code units and of UTF-8 bytes, unit by unit with a prefix first |
| `Canonical.SameTextSameMeaning` | packages/bridge/src/runtime/server.ts:612-623 | equal texts come from values equal up to key order, for keys without a double quote before a colon |
| `Canonical.SameMeaningSameText` | packages/bridge/src/runtime/server.ts:612-623 | values equal up to key order have equal texts, whatever their keys |
| `Canonical.CanonicalText` | packages/bridge/src/runtime/server.ts:612-623 | both directions at once |
| `Canonical.QuotedKeysCollide` | packages/bridge/src/runtime/server.ts:621 | for any two sorted keys and any values, a one-key object with quotes in its key has the text of the two-key object |
| `ResponseCache.CacheSecondsOf` | packages/bridge/src/runtime/server.ts:506-522 | a numeral, with leading zeros or not, and a unit give that many seconds, minutes, hours or days; every other setting gives 0 |
| `ResponseCache.Cache.LookUp` | packages/bridge/src/runtime/server.ts:187-230 | the in-process lookup: private names, uncached logic, hit, miss, and dropping an expired entry |
| `ResponseCache.Cache.Store` | packages/bridge/src/runtime/server.ts:274-290 | an entry is stored with its expiry only for a positive ttl |
| `ResponseCache.KeyMeansCall` | packages/bridge/src/runtime/server.ts:193-200 | two calls have one cache key if and only if they are the same namespace, name and parameters up to key order |
| `ResponseCache.HitIsSound` | packages/bridge/src/runtime/server.ts:187-290 | in any interleaving, a hit is for logic with access absent, empty or public and a non-empty cache setting, and returns what an earlier miss of the same call stored less than ttl seconds before |
| `ResponseCache.StoredIsHit` | packages/bridge/src/runtime/server.ts:187-290 | the converse over runs: an answer stored for cacheable logic with a positive ttl is the hit of every look at the same call before it expires, as long as no other answer to the call is stored |
| `ResponseCache.LookedUp` | packages/bridge/src/runtime/server.ts:180-215 | a call of a name that starts with an underscore is refused, and of the others exactly those of public logic with a cache setting are looked up |
| `ResponseCache.QuotedParamsShareEntry` | packages/bridge/src/runtime/server.ts:193-200 | with quotes in parameter names two different calls share an entry |
| `Registry.CreateEdgeLatest` | packages/hub/internal/registry/registry.go:158-170 | the loop builds the map in which the last bundle of a namespace/name wins |
| `Registry.Push` | packages/hub/internal/registry/registry.go:84-104 | a push leaves the store as after its whole list of writes, latest first |
| `Registry.KvStore.Set` | packages/hub/internal/registry/registry.go:88 | a write sets one key |
| `Registry.KeyIdentifies` | packages/hub/internal/registry/registry.go:95 | a key belongs to one namespace and name if and only if neither has a colon |
| `Registry.LatestApart` | packages/hub/internal/registry/registry.go:85-95 | no bundle key is the latest key |
| `EdgeServer.ParsePath` | packages/bridge/src/runtime/server.ts:315-323 | namespace and name are non-empty and the name has no slash |
| `EdgeServer.SegmentsParsed` | packages/bridge/src/runtime/server.ts:315-323 | of the non-empty segments of a path the last is the name and the others, joined by slashes, the namespace; with fewer than two there is none |
| `EdgeServer.PathIdentifies` | packages/bridge/src/runtime/server.ts:198 | the path text determines namespace and name |
| `EdgeServer.Server.LoadBundle` | packages/bridge/src/runtime/server.ts:325-361 | cache, own key, then the latest document, caching what is read: new cache and result are those of the load function |
| `EdgeServer.LoadEntries` | packages/bridge/src/runtime/server.ts:325-361 | where every entry of the cache after a load comes from |
| `EdgeServer.LoadKeeps` | packages/bridge/src/runtime/server.ts:325-361 | a load drops no key and returns what is cached after it |
| `EdgeServer.CacheAllAdds` | packages/bridge/src/runtime/server.ts:352-358 | caching the latest document overlays the cache with what it puts in an empty one |
| `Publication.Reachable` | packages/hub/internal/registry/registry.go:84-104 | the invariant of store and caches holds in every reachable state |
| `Publication.CacheNeverGoesBack` | packages/bridge/src/runtime/server.ts:325-361 | after any run and any continuation, a cached key stays cached and its push number never decreases |
| `Publication.LoadReturnsRequested` | packages/bridge/src/runtime/server.ts:325-361 | in any run a load returns a bundle of the key asked for, hence of the namespace and name when they have no colon |
| `Publication.LastWriterWins` | packages/hub/internal/registry/registry.go:63-170 | when no push is under way a cold load returns the kind, namespace, name, content, hash and config of the most recently pushed bundle of that name in the whole history, with the defaults for a missing config, or nothing if there never was one |
| `Publication.CacheTransparent` | packages/bridge/src/runtime/server.ts:325-361 | whatever a server has cached, every sequence of its loads shows what cold loads show, if and only if the latest document agrees with the single keys and every cached entry is what a cold load shows, the number of the push aside |
| `Publication.TransparentServer` | packages/bridge/src/runtime/server.ts:325-361 | so it is for every server in every reachable state |
| `Publication.TransparentDuringPush` | packages/bridge/src/runtime/server.ts:325-361 | from the latest write of a push on, it is for a server if and only if its entries are what cold loads show and every bundle of the manifest whose own key is stored already has its new content there |
| `Publication.TransparentAfterRepush` | packages/hub/internal/registry/registry.go:84-104 | after a push of a bundle and the latest write of a second push of it, with no load yet, it is if and only if one stored bundle is what both publish |
| `Publication.WarmServerGoesStale` | packages/bridge/src/runtime/server.ts:330-332 | a server that loaded a bundle before a second push of it answers the old bundle after that push completes, where a cold load answers the new one |
| `Publication.TransparentBetweenPushes` | packages/bridge/src/runtime/server.ts:325-361 | after completed pushes, the last of them plain, it is for a server if and only if its entries are what cold loads show |
| `Publication.ColdServerIsTransparent` | packages/bridge/src/runtime/server.ts:325-361 | so a server that starts then answers every sequence of loads as cold loads do |
| `Publication.AvailableMidPush` | packages/hub/internal/registry/registry.go:84-104 | from the latest write of a push on, at every step, a cold load of each bundle of the manifest gives, field by field, a bundle of that name of this push or the last one pushed before it |
| `TypeDecls.FileRoundTrip` | packages/cli/internal/engine/generator/types.go:12-131 | parsing a printed declaration file recovers the whole tree: namespaces, bundles, parameters, optionality and types |
| `TypeDecls.TextBalances` | packages/cli/internal/engine/generator/types.go:65-131 | in the printed text of a declaration braces never close below the depth they opened at, and balance at every depth |
| `TypeDecls.FileBalances` | packages/cli/internal/engine/generator/types.go:12-58 | the printed file closes every brace it opens |
| `TypeDecls.BracesAreMarks` | packages/cli/internal/engine/generator/types.go:65-131 | the characters of a text and its tokens have the same brace depth |
| `TypeGenerator.NamespaceNode.constructor` | packages/cli/internal/engine/generator/types.go:44 | a new node is empty |
| `TypeGenerator.AddChild` | packages/cli/internal/engine/generator/types.go:43-46 | a missing child becomes one new node at the longer path |
| `TypeGenerator.Enter` | packages/cli/internal/engine/generator/types.go:42-47 | the child of a part, found or made; the trie grows by that path at most |
| `TypeGenerator.Descend` | packages/cli/internal/engine/generator/types.go:37-48 | the walk ends at the node of the normalized path and adds exactly its prefixes |
| `TypeGenerator.InsertBundle` | packages/cli/internal/engine/generator/types.go:31-49 | inserting keeps: every public bundle sits at the node of its namespace and nothing else is in the tree |
| `TypeGenerator.BuildTrie` | packages/cli/internal/engine/generator/types.go:21-50 | the built trie holds exactly the public logic bundles of the manifest |
| `TypeGenerator.AtCounts` | packages/cli/internal/engine/generator/types.go:23-50 | each bundle is at its node as often as the manifest has it and at no other node |
| `TypeGenerator.SortBundles` | packages/cli/internal/engine/generator/types.go:67-69 | the node's bundles become a permutation of themselves sorted by name |
| `TypeGenerator.WriteParams` | packages/cli/internal/engine/generator/types.go:73-109 | the printed parameters are those of the bundle in key order, skipping what is no object |
| `TypeGenerator.WriteBundles` | packages/cli/internal/engine/generator/types.go:70-112 | the printed functions are those of the bundles in order |
| `TypeGenerator.WriteNamespace` | packages/cli/internal/engine/generator/types.go:65-131 | what is printed is a declaration that renders the subtree: bundles and children sorted, nothing lost |
| `TypeGenerator.WriteChildren` | packages/cli/internal/engine/generator/types.go:115-130 | the children are printed once each, in strictly sorted order |
| `TypeGenerator.GenerateTypes` | packages/cli/internal/engine/generator/types.go:12-58 | the text prints a declaration that renders a trie holding exactly the manifest's public bundles |
| `TypeGenerator.RendersUnique` | packages/cli/internal/engine/generator/types.go:65-131 | tries with the same bundles at each node, those of one name with equal parameters, render to the same declaration |
| `TypeGenerator.OrderDoesNotMatter` | packages/cli/internal/engine/generator/types.go:12-131 | permuted manifests give identical texts when bundles that share namespace and name share their parameters |
| `TypeGenerator.GeneratedFileParses` | packages/cli/internal/engine/generator/types.go:12-131 | for identifier names, parsing the generated text recovers the rendered declaration |
| `TypeNamespaces.PathIs` | packages/cli/internal/engine/generator/types.go:31-48 | a bundle's path is the parts its namespace has between slashes, without the empty ones and the dots |
| `TypeNamespaces.ProperParts` | packages/cli/internal/engine/generator/types.go:37-41 | parts that are neither empty nor dots are the path as they stand |
| `TypeNamespaces.AtItsPath` | packages/cli/internal/engine/generator/types.go:31-49 | in every trie that holds the manifest a logic, js or sql bundle whose name has no leading underscore is at that path, as often as in the manifest, and at no other |
| `TypeNamespaces.SlashesAndDots` | packages/cli/internal/engine/generator/types.go:31-41 | a slash at either end, a doubled slash or a dot between slashes does not change where a bundle is |
| `TypeNamespaces.RootNamespaces` | packages/cli/internal/engine/generator/types.go:31-35 | the empty namespace and the dot are the root |
| `TypeNamespaces.DeclaredThere` | packages/cli/internal/engine/generator/types.go:12-131 | every such bundle is declared, with its parameters, inside the namespaces its namespace text spells |
| `TypeNamespaces.DeclaredOnlyThere` | packages/cli/internal/engine/generator/types.go:12-131 | every function that is declared anywhere is that of such a bundle of the manifest, at the path its namespace text spells |
| `TypeNamespaces.ParamsAre` | packages/cli/internal/engine/generator/types.go:73-109 | a bundle's declared parameters, in strict order of name, are exactly those its config gives as objects, optional unless required, string, int and bool as string, number and boolean and all else as any |
| `TypeNamespaces.GeneratedThere` | packages/cli/internal/engine/generator/types.go:12-131 | for identifier names the generated text, parsed, declares every such bundle at its path |
| `TypeNamespaces.GeneratedOnlyThere` | packages/cli/internal/engine/generator/types.go:12-131 | and declares nothing else |
| `TypeOrder.TextIsDetermined` | packages/cli/internal/engine/generator/types.go:12-131 | for identifier names, all orders of the bundles and of equal names give one text if and only if bundles that share namespace and name share their parameters |
| `TypeOrder.TwoTexts` | packages/cli/internal/engine/generator/types.go:67-69 | two bundles of one namespace and name with different parameters make two different generated texts for one manifest |
| `TypeOrder.Declared` | packages/cli/internal/engine/generator/types.go:12-131 | every arrangement of the bundles by name is shown by some declaration of the manifest |
| `TypeOrder.SameFns` | packages/cli/internal/engine/generator/types.go:65-131 | a declaration determines the functions shown at every path |
| `Rebind.IntToString` | packages/hub/internal/store/sqlstore/rebind.go:23-35 | below 10^16 the buffer loop stays in its 16 bytes and prints the decimal numeral; a negative number prints nothing; from 10^16 on it panics |
| `Rebind.DecimalLength` | packages/hub/internal/store/sqlstore/rebind.go:27-33 | a numeral fits in k bytes if and only if the number is below 10^k |
| `Text.DecimalRoundTrip` | packages/hub/internal/store/sqlstore/rebind.go:23-35 | the numeral parses back to the number |
| `Text.DecimalHasNoLeadingZero` | packages/hub/internal/store/sqlstore/rebind.go:23-35 | only 0 starts with a zero |
| `Rebind.Rebind` | packages/hub/internal/store/sqlstore/rebind.go:5-21 | for postgres the loop replaces the question marks by `$1`, `$2`, ... and keeps the rest; other dialects keep the query |
| `Rebind.RebindKeepsBinding` | packages/hub/internal/store/sqlstore/rebind.go:5-21 | read positionally the output is the input read by question marks, if and only if no `$` or `?` is directly before a digit |
| `Rebind.RebindInvertible` | packages/hub/internal/store/sqlstore/rebind.go:5-21 | then the arguments are 1..n in order and turning each back into `?` recovers the input |
| `PrepareSql.Prepare` | packages/bridge/src/runtime/logic.ts:22-37 | the replacing loop yields the numbered text and the values in order of appearance |
| `PrepareSql.PrepareKeepsBinding` | packages/bridge/src/runtime/logic.ts:22-37 | filling `$1`..`$n` from the values is replacing each maximal `:word` by its parameter, if and only if the template has no `$` before a digit |
| `PrepareSql.ParametersCount` | packages/bridge/src/runtime/logic.ts:26-34 | the parameters of the text are exactly 1..n in order, n the number of values |
| `PrepareSql.ScanIsGreedy` | packages/bridge/src/runtime/logic.ts:30 | no digit follows a matched name, so no `$k` runs into one |
| `PrepareSql.ScanCuts` | packages/bridge/src/runtime/logic.ts:30 | the template is cut without loss into names that a colon starts, as long as word characters follow, and single characters, none of them a colon that could start a name |
| `LogicParser.ParseLogicFile` | packages/cli/internal/engine/parser/parser.go:64-103 | block comment, then plain front matter, then content by file name, read into one config; an error or a panic gives none |
| `GoStrings.SpacesAre` | packages/cli/internal/engine/parser/parser.go:68 | what trimming takes off is the 25 characters that Unicode calls white space |
| `LogicParser.PlainFormRecovers` | packages/cli/internal/engine/parser/parser.go:84-93 | the plain form gives back the YAML text and the trimmed body, whatever the body is, if and only if the YAML text is told apart from the dashes after it |
| `LogicParser.PlainRoundTrip` | packages/cli/internal/engine/parser/parser.go:64-103 | then the file is read as what that YAML means, with the trimmed body as its SQL or JavaScript by the end of its name |
| `LogicParser.NewlineSeparates` | packages/cli/internal/engine/parser/parser.go:85 | it is, when it has no three dashes and ends in a newline |
| `LogicParser.NoFrontMatter` | packages/cli/internal/engine/parser/parser.go:64-103 | a text with neither form is its own content, untrimmed, under an empty config |
| `LogicParser.BlockFormRecovers` | packages/cli/internal/engine/parser/parser.go:68-81 | the same for a block comment, for YAML text without `*/` |
| `LogicParser.BlockRoundTrip` | packages/cli/internal/engine/parser/parser.go:64-103 | the file is read so, when the body has no front matter of its own |
| `LogicParser.BothRoundTrip` | packages/cli/internal/engine/parser/parser.go:64-103 | with both forms the comment's YAML is read first and the plain one into the config it gave |
| `LogicParser.SliceOutOfRange` | packages/cli/internal/engine/parser/parser.go:69-70 | the comment's slice ends before it starts if and only if the text starts with `/*/` |
| `LogicParser.ParseLogicMetadata` | packages/cli/internal/engine/parser/parser.go:106-112 | a metadata file is its YAML read into an empty config |
| `LogicParser.ValidateLogicConfig` | packages/cli/internal/engine/parser/parser.go:115-151 | accepts exactly the configs with namespace, name, one of SQL and JS, a visible access and known parameter types |
| `LogicConfigs.ApplyLogicMetadata` | packages/cli/internal/commands/logic.go:213-229 | overwrites in place exactly the fields the metadata sets, each by itself, and leaves SQL, JavaScript, namespace and name |
| `LogicConfigs.EntryFor` | packages/cli/internal/commands/logic.go:155-163 | the entry of a key is found or made, the others stay |
| `LogicConfigs.Extend` | packages/cli/internal/commands/logic.go:164-189 | a file is added to its entry, unless it cannot be read or parsed or is a second source |
| `LogicConfigs.Update` | packages/cli/internal/commands/logic.go:155-189 | after a round every entry says what the files seen so far say of its key, and entries share no object |
| `LogicConfigs.CollectEntries` | packages/cli/internal/commands/logic.go:144-190 | the first loop fails only on files that cannot be built |
| `LogicConfigs.Finish` | packages/cli/internal/commands/logic.go:194-205 | an entry becomes its merged config, or is refused, exactly as its files demand |
| `LogicConfigs.BuildLogicConfigs` | packages/cli/internal/commands/logic.go:143-211 | succeeds if and only if all files load and every key has one source and a valid merge; then gives one config per key, each field of it from the file that decides it |
| `LogicConfigs.GroupBuiltFrom` | packages/cli/internal/commands/logic.go:143-229 | the config of a key has target, access, cache and params each from its last metadata file where that sets it and from its one source file otherwise, SQL and JavaScript from the source, namespace and name from its first file |
| `LogicConfigs.KindIs` | packages/cli/internal/commands/logic.go:173-189 | metadata files are those whose name ends in .yaml or .yml, source files those whose name ends in .sql or .js |
| `LogicConfigs.NameIs` | packages/cli/internal/commands/logic.go:149-151 | the name of a file is what is before its last dot |
| `LogicConfigs.TwinsShareKey` | packages/cli/internal/commands/logic.go:148-153 | files with plain names share a key if and only if they share directory and name |
| `LogicConfigs.OddNamesShareKey` | packages/cli/internal/commands/logic.go:148-153 | a file with no name or a dot for one shares the key of twins exactly one directory up, one called `..` that of twins two up |
| `LogicConfigs.OrderDoesNotMatter` | packages/cli/internal/commands/logic.go:143-229 | for files that build in some order, every order builds the same config for each key, if and only if files of a key share namespace and name and its metadata files all make the same of its source |
| `LogicConfigs.AnyOrderBuildsTheSame` | packages/cli/internal/commands/logic.go:143-229 | under those conditions any two orders fail together or build the same |
| `LogicConfigs.HomeMatters` | packages/cli/internal/commands/logic.go:155-163 | a file of another home scanned first changes the outcome |
| `LogicConfigs.OverlayMatters` | packages/cli/internal/commands/logic.go:174-179 | a metadata file with another overlay scanned last changes the outcome |
| `LogicConfigs.PlainNamesHaveOneHome` | packages/cli/internal/commands/logic.go:149-153 | files with a name other than the empty one and dots share a key only in one directory under one name |
| `LogicConfigs.TwoMetadataFilesMatter` | packages/cli/internal/commands/logic.go:174-179 | with two metadata files of different targets under one key, some other order fails or builds another config |
| `LogicConfigs.NamelessMetadataMatters` | packages/cli/internal/commands/logic.go:149-163 | a nameless metadata file scanned first makes the build fail, scanned last it is the source's metadata |
| `SchemaService.CopySchemas` | packages/hub/internal/schema/schema.go:310-316 | a new map with the same entries |
| `SchemaService.Migrations` | packages/hub/internal/schema/schema.go:242-260 | one migration for each alias whose trimmed schema differs, field by field, none for the others |
| `SchemaService.Service.constructor` | packages/hub/internal/schema/schema.go:49-56 | a new service has no state and no plans |
| `SchemaService.Service.Plan` | packages/hub/internal/schema/schema.go:59-71 | refuses a missing project or schemas; else remembers a copy as the project's plan and reports its changes |
| `SchemaService.Service.PlanMock` | packages/hub/internal/schema/schema.go:237-271 | the plan without a database |
| `SchemaService.Service.Apply` | packages/hub/internal/schema/schema.go:148-156 | a missing project is refused, else the plan is applied |
| `SchemaService.Service.ApplyMock` | packages/hub/internal/schema/schema.go:273-286 | the plan becomes the state and is consumed; without one, migrations are an error that changes nothing |
| `SchemaService.Service.GetState` | packages/hub/internal/schema/schema.go:298-308 | the applied schema of an alias, or an error |
| `SchemaService.ProjectsIndependent` | packages/hub/internal/schema/schema.go:237-286 | in any run a project's state and plan are those of the run of its own requests alone |
| `SchemaService.WhatIsPlanned` | packages/hub/internal/schema/schema.go:262-264 | a plan waits if and only if one was made and nothing about the project came after, and it is that one |
| `SchemaService.AppliedWasPlanned` | packages/hub/internal/schema/schema.go:273-286 | a project's state is nothing if no plan of its was ever applied, else exactly the map of the plan applied last |
| `SchemaService.ReapplyFails` | packages/hub/internal/schema/schema.go:276-282 | after an apply, whatever others do, applying migrations again without a new plan fails and changes nothing |
| `SchemaService.ReplanReportsNothing` | packages/hub/internal/schema/schema.go:237-270 | planning again what was planned and applied reports no changes |
| `SchemaService.QuietPlanKeepsSchemas` | packages/hub/internal/schema/schema.go:237-286 | a plan without changes, planned and applied, keeps every schema up to space if and only if the aliases it drops are blank |
| `SchemaService.QuietPlanKeepsAnswers` | packages/hub/internal/schema/schema.go:237-308 | it keeps the answers of GetState, errors included, if and only if it has just the project's aliases |
| `SchemaService.DroppedAliasIsNoChange` | packages/hub/internal/schema/schema.go:242-264 | a plan with an alias left out reports no changes, and applying it makes the alias an error |
| `SchemaService.BlankAliasIsNoChange` | packages/hub/internal/schema/schema.go:242-264 | a plan with a blank new alias reports no changes, and applying it makes the alias an answer |

## Left out

- HTTP, JWT, vault, SigV4, adapters, loggers, CLI commands, Redis, files, esbuild, PostgreSQL and Atlas: foreign calls and plumbing. What SQL means is given by the evaluator of `Sql.dfy`.
- Crud.CompiledMeaning: asks for identifiers that are plain lower-case words and none of the words PostgreSQL reserves, because the handlers paste names unquoted. For other names the emitted text means something else, and neither the meaning nor the isolation results promise anything: a where key that is more than a column name becomes part of the condition. The same holds of every result about runs of requests. Schema qualification and quoting are not modelled.
- Empty data makes a text the database refuses; an empty column list does too here, though PostgreSQL accepts it and returns rows without columns. Limits and offsets are whole numbers. Column types, constraints and generated defaults beyond constants are not modelled; a NULL equals nothing.
- `getTableColumns` reads `information_schema`; here it is the column list of the table.
- JavaScript objects are lists of entries in insertion order; inherited properties such as `constructor`, and integer-like keys that JavaScript moves to the front, are not modelled.
- `shouldExcludeFromSelectAll` and `shouldAuditColumn` decide nothing in the modelled handlers; loading the permissions file is input.
- Texts are sequences of Unicode scalar values: lone surrogates and invalid UTF-8 do not occur. Go's byte loops are modelled character by character.
- Numbers keep their text in `Canonical.dfy`; `undefined`, functions and `toJSON` are not JSON values.
- Publication.CacheNeverGoesBack: assumes, like all of `Publication.dfy`, atomic loads and writes that all succeed. A load that is split at its awaits can overwrite a newer entry, and a failed `latest` write breaks availability; both are outside the model. One publisher pushes at a time. The `push` number in a stored bundle is not in the source: it says which push a reader sees.
- ResponseCache.HitIsSound: is about the in-process map; the platform's `caches.default` and response headers are not modelled, and a cache key is the triple of request URL, path and parameter text rather than their URL encoding.
- `executeBundle` keeps the compiled JavaScript handler in the bundle; not modelled.
- TypeGenerator.OrderDoesNotMatter: `sort.Slice` is not stable, so the order of bundles with equal names is left open; that is why those must have equal parameters.
- `::` casts in SQL templates: the regular expression takes the second colon and the word as a parameter, and so does the model.
- `filepath.Join` keys are lists of path parts, and a directory is never called `.` or `..`. YAML is an opaque function of the text and of the config it is read into. A panic counts as a failed build.
- `SchemaService.Service.Plan`: the state is read and the plan stored under two separate locks; the model takes them as one step.
- The text of error messages is modelled only where handlers return it; `shortHash` and the clock are parameters.
- In-memory and SQL repositories, projects, teams, user and project config, DSN normalization: only easy members.
