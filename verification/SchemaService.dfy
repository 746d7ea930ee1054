// schema.go without a database: planning and applying HCL schemas against a state
// kept in memory, one per project.
module SchemaService {
  import opened Text
  import opened GoStrings
  import opened Order

  // The schemas of a project by alias.
  type Schemas = map<string, string>

  datatype Migration = Migration(id: string, project: string, version: string, sql: string, description: string, applied: bool)

  datatype Error = ProjectRequired | SchemasRequired | NothingPlanned | StateNotFound

  datatype Result<+T> = Ok(value: T) | Err(error: Error)

  datatype PlanResult = PlanResult(migrations: seq<Migration>, hasChanges: bool, summary: string)

  // Opaque: shortHash, and the clock.
  type Hash = string -> string

  function NormalizeHcl(value: string): string {
    TrimSpace(value)
  }

  // What a project has for an alias: "" when it has nothing.
  function Existing(current: Option<Schemas>, alias: string): string {
    if current.Some? && alias in current.value then current.value[alias] else ""
  }

  predicate Unchanged(current: Option<Schemas>, alias: string, desired: string) {
    TrimSpace(Existing(current, alias)) == TrimSpace(desired)
  }

  // The aliases with a new schema.
  function Changed(current: Option<Schemas>, schemas: Schemas): set<string> {
    set alias | alias in schemas && !Unchanged(current, alias, schemas[alias])
  }

  function MigrationFor(project: string, alias: string, desired: string, now: string, hash: Hash): Migration {
    Migration(project + "-" + hash(desired), project, now,
              "-- Native Atlas driver failed. Mock migration for " + alias, "schema update for " + alias + " (mock)", false)
  }

  function PlanSummary(count: nat): string {
    if count == 0 then "Local mode: no changes detected"
    else "Local mode: " + Decimal(count) + " schema changes detected"
  }

  // One migration for each changed alias, in the order the map was walked.
  ghost predicate Lists(changes: seq<Migration>, aliases: seq<string>, changed: set<string>, project: string, schemas: Schemas,
                        now: string, hash: Hash) {
    && Distinct(aliases) && Elements(aliases) == changed
    && |changes| == |aliases|
    && forall i :: 0 <= i < |aliases| ==>
         aliases[i] in schemas && IsMigration(changes[i], project, aliases[i], schemas[aliases[i]], now, hash)
  }

  // What a mock migration says, field by field.
  ghost predicate IsMigration(m: Migration, project: string, alias: string, desired: string, now: string, hash: Hash) {
    && m.id == project + "-" + hash(desired) && m.project == project && m.version == now && !m.applied
    && m.sql == "-- Native Atlas driver failed. Mock migration for " + alias
    && m.description == "schema update for " + alias + " (mock)"
  }

  lemma {:induction false} ListsMore(changes: seq<Migration>, aliases: seq<string>, changed: set<string>, alias: string, project: string,
                                     schemas: Schemas, now: string, hash: Hash)
    requires Lists(changes, aliases, changed, project, schemas, now, hash) && alias in schemas && alias !in changed
    ensures Lists(changes + [MigrationFor(project, alias, schemas[alias], now, hash)], aliases + [alias], changed + {alias},
                  project, schemas, now, hash)
  {
    assert IsMigration(MigrationFor(project, alias, schemas[alias], now, hash), project, alias, schemas[alias], now, hash);
    hide MigrationFor, IsMigration;
    assert alias !in Elements(aliases);
    var more := aliases + [alias];
    assert Elements(more) == changed + {alias} by {
      assert forall x :: x in more <==> x in aliases || x == alias;
    }
  }

  lemma {:induction false} NothingListed(project: string, schemas: Schemas, now: string, hash: Hash)
    ensures Lists([], [], {}, project, schemas, now, hash)
  {
  }

  lemma {:induction false} AllListed(changes: seq<Migration>, aliases: seq<string>, changed: set<string>, project: string,
                                     schemas: Schemas, now: string, hash: Hash)
    requires Lists(changes, aliases, changed, project, schemas, now, hash)
    ensures OneEach(changes, changed, project, schemas, now, hash)
    ensures changes == [] <==> changed == {}
  {
    assert aliases != [] ==> aliases[0] in Elements(aliases);
  }

  ghost predicate OneEach(changes: seq<Migration>, changed: set<string>, project: string, schemas: Schemas, now: string, hash: Hash) {
    exists aliases :: Lists(changes, aliases, changed, project, schemas, now, hash)
  }

  ghost predicate Describes(r: PlanResult, project: string, current: Option<Schemas>, schemas: Schemas, now: string, hash: Hash) {
    && OneEach(r.migrations, Changed(current, schemas), project, schemas, now, hash)
    && (r.hasChanges <==> Changed(current, schemas) != {})
    && r.summary == if r.migrations == [] then "Local mode: no changes detected"
                    else "Local mode: " + Decimal(|r.migrations|) + " schema changes detected"
  }

  // ---------- the state machine ----------

  datatype Local = Local(state: map<string, Schemas>, planned: map<string, Schemas>)

  const START := Local(map[], map[])

  datatype Op = Plan(project: string, schemas: Schemas) | Apply(project: string, hasMigrations: bool) | GetState(project: string, alias: string)

  // A request that gets past the checks of its arguments.
  predicate IsPlan(op: Op) {
    op.Plan? && op.project != "" && op.schemas != map[]
  }

  predicate IsApply(op: Op) {
    op.Apply? && op.project != ""
  }

  function Without<T>(m: map<string, T>, key: string): map<string, T> {
    map k | k in m && k != key :: m[k]
  }

  function Next(l: Local, op: Op): Local {
    if IsPlan(op) then l.(planned := l.planned[op.project := op.schemas])
    else if IsApply(op) && op.project in l.planned then
      Local(l.state[op.project := l.planned[op.project]], Without(l.planned, op.project))
    else l
  }

  function ApplyError(l: Local, op: Op): Option<Error>
    requires op.Apply?
  {
    if op.project == "" then Some(ProjectRequired)
    else if op.project !in l.planned && op.hasMigrations then Some(NothingPlanned)
    else None
  }

  function Run(l: Local, ops: seq<Op>): Local {
    if ops == [] then l else Next(Run(l, ops[..|ops| - 1]), ops[|ops| - 1])
  }

  function Find(m: map<string, Schemas>, key: string): Option<Schemas> {
    if key in m then Some(m[key]) else None
  }

  // What GetState answers.
  function StateOf(l: Local, project: string, alias: string): Result<string> {
    var current := Find(l.state, project);
    if current.Some? && alias in current.value then Ok(current.value[alias]) else Err(StateNotFound)
  }

  // ---------- the service ----------

  // A Go map of schemas: passing it shares it.
  class SchemaMap {
    var entries: Schemas

    constructor ()
      ensures entries == map[]
    {
      entries := map[];
    }
  }

  method CopySchemas(src: SchemaMap) returns (dst: SchemaMap)
    ensures fresh(dst) && dst.entries == src.entries
  {
    dst := new SchemaMap();
    var keys := src.entries.Keys;
    while keys != {}
      invariant keys <= src.entries.Keys && dst != src
      invariant dst.entries.Keys == src.entries.Keys - keys
      invariant forall k :: k in dst.entries ==> dst.entries[k] == src.entries[k]
      decreases |keys|
    {
      var k :| k in keys;
      dst.entries := dst.entries[k := src.entries[k]];
      keys := keys - {k};
    }
  }

  // One alias less to look at.
  lemma {:induction false} RestShrinks(current: Option<Schemas>, schemas: Schemas, rest: set<string>, alias: string)
    requires alias in rest && alias in schemas
    ensures var changed := Changed(current, schemas);
            && alias !in changed - rest
            && changed - (rest - {alias}) == changed - rest + (if Unchanged(current, alias, schemas[alias]) then {} else {alias})
  {
    hide Unchanged;
  }

  lemma {:induction false} RestEnds(current: Option<Schemas>, schemas: Schemas)
    ensures Changed(current, schemas) - schemas.Keys == {} && Changed(current, schemas) - {} == Changed(current, schemas)
  {
    hide Unchanged;
  }

  // The loop of planMock.
  method Migrations(project: string, current: Option<Schemas>, schemas: SchemaMap, now: string, hash: Hash)
    returns (changes: seq<Migration>)
    ensures OneEach(changes, Changed(current, schemas.entries), project, schemas.entries, now, hash)
    ensures changes == [] <==> Changed(current, schemas.entries) == {}
  {
    hide Lists, OneEach, MigrationFor, TrimSpace, Changed;
    changes := [];
    ghost var aliases: seq<string> := [];
    ghost var changed := Changed(current, schemas.entries);
    var rest := schemas.entries.Keys;
    NothingListed(project, schemas.entries, now, hash);
    RestEnds(current, schemas.entries);
    while rest != {}
      invariant rest <= schemas.entries.Keys
      invariant Lists(changes, aliases, changed - rest, project, schemas.entries, now, hash)
      decreases |rest|
    {
      var alias :| alias in rest;
      var desired := schemas.entries[alias];
      ghost var done := changed - rest;
      RestShrinks(current, schemas.entries, rest, alias);
      rest := rest - {alias};
      var existing := "";
      if current.Some? && alias in current.value {
        existing := current.value[alias];
      }
      if NormalizeHcl(existing) == NormalizeHcl(desired) {
        assert done + {} == done;
        continue;
      }
      ListsMore(changes, aliases, done, alias, project, schemas.entries, now, hash);
      changes := changes + [MigrationFor(project, alias, desired, now, hash)];
      aliases := aliases + [alias];
    }
    AllListed(changes, aliases, changed, project, schemas.entries, now, hash);
  }

  // What applying does, and its error.
  lemma {:induction false} ApplyStep(l: Local, project: string, hasMigrations: bool)
    requires project != ""
    ensures var op := Op.Apply(project, hasMigrations);
            && Next(l, op) == (if project in l.planned then Local(l.state[project := l.planned[project]], Without(l.planned, project)) else l)
            && ApplyError(l, op) == (if project !in l.planned && hasMigrations then Some(NothingPlanned) else None)
  {
  }

  class Service {
    var state: map<string, SchemaMap>
    var lastPlanned: map<string, SchemaMap>

    ghost function Repr(): set<SchemaMap>
      reads this
    {
      state.Values + lastPlanned.Values
    }

    ghost function Abs(): Local
      reads this, Repr()
    {
      Local(map p | p in state :: state[p].entries, map p | p in lastPlanned :: lastPlanned[p].entries)
    }

    constructor ()
      ensures Abs() == START && Repr() == {}
    {
      state, lastPlanned := map[], map[];
    }

    // The maps the service keeps are its own copies.
    method Plan(project: string, schemas: SchemaMap, now: string, hash: Hash)
      returns (r: Result<PlanResult>)
      modifies this
      ensures Abs() == Next(old(Abs()), Op.Plan(project, old(schemas.entries)))
      ensures fresh(Repr() - old(Repr()))
      ensures project == "" ==> r == Err(ProjectRequired)
      ensures project != "" && old(schemas.entries) == map[] ==> r == Err(SchemasRequired)
      ensures project != "" && old(schemas.entries) != map[] ==>
                r.Ok? && Describes(r.value, project, Find(old(Abs()).state, project), old(schemas.entries), now, hash)
    {
      if project == "" {
        return Err(ProjectRequired);
      }
      if |schemas.entries| == 0 {
        return Err(SchemasRequired);
      }
      var plan := PlanMock(project, schemas, now, hash);
      r := Ok(plan);
    }

    method PlanMock(project: string, schemas: SchemaMap, now: string, hash: Hash) returns (r: PlanResult)
      requires project != "" && schemas.entries != map[]
      modifies this
      ensures Abs() == Next(old(Abs()), Op.Plan(project, old(schemas.entries)))
      ensures fresh(Repr() - old(Repr()))
      ensures Describes(r, project, Find(old(Abs()).state, project), old(schemas.entries), now, hash)
    {
      hide OneEach, Changed;
      var current := if project in state then Some(state[project].entries) else None;
      assert current == Find(Abs().state, project);
      var changes := Migrations(project, current, schemas, now, hash);
      r := PlanResult(changes, |changes| > 0, PlanSummary(|changes|));
      Remember(project, schemas);
    }

    method Remember(project: string, schemas: SchemaMap)
      modifies this`lastPlanned
      ensures Abs() == old(Abs()).(planned := old(Abs()).planned[project := old(schemas.entries)])
      ensures fresh(Repr() - old(Repr()))
    {
      var copy := CopySchemas(schemas);
      lastPlanned := lastPlanned[project := copy];
      assert Repr() <= old(Repr()) + {copy};
      assert Abs().state == old(Abs()).state;
      assert Abs().planned == old(Abs()).planned[project := old(schemas.entries)];
    }

    method Apply(project: string, migrations: seq<Migration>) returns (r: Result<()>)
      modifies this
      ensures var op := Op.Apply(project, migrations != []);
              && Abs() == Next(old(Abs()), op)
              && r == match ApplyError(old(Abs()), op) case None => Ok(()) case Some(e) => Err(e)
      ensures fresh(Repr() - old(Repr()))
    {
      if project == "" {
        return Err(ProjectRequired);
      }
      r := ApplyMock(project, migrations);
    }

    method ApplyMock(project: string, migrations: seq<Migration>) returns (r: Result<()>)
      requires project != ""
      modifies this
      ensures var op := Op.Apply(project, migrations != []);
              && Abs() == Next(old(Abs()), op)
              && r == match ApplyError(old(Abs()), op) case None => Ok(()) case Some(e) => Err(e)
      ensures fresh(Repr() - old(Repr()))
    {
      hide Next, ApplyError;
      ApplyStep(Abs(), project, migrations != []);
      if project !in lastPlanned {
        return if |migrations| == 0 then Ok(()) else Err(NothingPlanned);
      }
      Promote(project);
      r := Ok(());
    }

    method Promote(project: string)
      requires project in lastPlanned
      modifies this
      ensures Abs().state == old(Abs()).state[project := old(Abs()).planned[project]]
      ensures Abs().planned == Without(old(Abs()).planned, project)
      ensures fresh(Repr() - old(Repr()))
    {
      var copy := CopySchemas(lastPlanned[project]);
      state := state[project := copy];
      lastPlanned := Without(lastPlanned, project);
      assert Repr() <= old(Repr()) + {copy};
    }

    method GetState(project: string, alias: string) returns (r: Result<string>)
      ensures r == StateOf(Abs(), project, alias)
    {
      if project in state {
        var schemas := state[project];
        if alias in schemas.entries {
          return Ok(schemas.entries[alias]);
        }
      }
      r := Err(StateNotFound);
    }
  }

  // ---------- runs ----------

  predicate About(op: Op, project: string) {
    (IsPlan(op) || IsApply(op)) && op.project == project
  }

  function Only(ops: seq<Op>, project: string): seq<Op> {
    if ops == [] then []
    else Only(ops[..|ops| - 1], project) + (if About(ops[|ops| - 1], project) then [ops[|ops| - 1]] else [])
  }

  datatype View = View(state: Option<Schemas>, planned: Option<Schemas>)

  function ViewOf(l: Local, project: string): View {
    View(Find(l.state, project), Find(l.planned, project))
  }

  lemma {:induction false} NextIsLocal(l: Local, m: Local, op: Op, project: string)
    requires ViewOf(l, project) == ViewOf(m, project)
    ensures ViewOf(Next(l, op), project) == ViewOf(Next(m, op), project)
    ensures !About(op, project) ==> ViewOf(Next(l, op), project) == ViewOf(l, project)
  {
  }

  lemma {:induction false} RunMore(l: Local, ops: seq<Op>, op: Op)
    ensures Run(l, ops + [op]) == Next(Run(l, ops), op)
  {
    assert (ops + [op])[..|ops|] == ops;
  }

  // A project sees just what it would see alone.
  lemma {:induction false} ProjectsIndependent(l: Local, ops: seq<Op>, project: string)
    ensures ViewOf(Run(l, ops), project) == ViewOf(Run(l, Only(ops, project)), project)
    decreases |ops|
  {
    hide Next, About, ViewOf;
    if ops != [] {
      var front, op := ops[..|ops| - 1], ops[|ops| - 1];
      ProjectsIndependent(l, front, project);
      NextIsLocal(Run(l, front), Run(l, Only(front, project)), op, project);
      RunMore(l, Only(front, project), op);
      assert Only(front, project) + [] == Only(front, project);
    }
  }

  // At the end of ops, the plan ops[i] of the project waits to be applied.
  ghost predicate Pending(ops: seq<Op>, project: string, i: int) {
    0 <= i < |ops| && IsPlan(ops[i]) && ops[i].project == project && forall k :: i < k < |ops| ==> !About(ops[k], project)
  }

  // ops[j] applies the plan ops[i].
  ghost predicate Applies(ops: seq<Op>, project: string, i: int, j: int) {
    0 <= j < |ops| && IsApply(ops[j]) && ops[j].project == project && Pending(ops[..j], project, i)
  }

  lemma {:induction false} WhatIsPlanned(ops: seq<Op>, project: string) returns (i: int)
    ensures project in Run(START, ops).planned ==> Pending(ops, project, i) && Run(START, ops).planned[project] == ops[i].schemas
    ensures project !in Run(START, ops).planned ==> forall k :: !Pending(ops, project, k)
    decreases |ops|
  {
    if ops == [] {
      i := 0;
    } else {
      var front, op := ops[..|ops| - 1], ops[|ops| - 1];
      i := WhatIsPlanned(front, project);
      if IsPlan(op) && op.project == project {
        i := |ops| - 1;
      } else {
        forall k ensures Pending(ops, project, k) <==> Pending(front, project, k) && !About(op, project) {
          PendingMore(front, op, project, k);
          assert front + [op] == ops;
        }
      }
    }
  }

  lemma {:induction false} PendingMore(front: seq<Op>, op: Op, project: string, k: int)
    requires !(IsPlan(op) && op.project == project)
    ensures Pending(front + [op], project, k) <==> Pending(front, project, k) && !About(op, project)
  {
    hide About, IsPlan;
    var ops := front + [op];
    assert ops[|front|] == op;
    if Pending(front, project, k) && !About(op, project) {
      forall m | k < m < |ops| ensures !About(ops[m], project) {
      }
    }
    if Pending(ops, project, k) {
      forall m | k < m < |front| ensures !About(front[m], project) {
        assert front[m] == ops[m];
      }
    }
  }

  // What a project has is nothing, if no plan of its was ever applied, or exactly the
  // map of the plan applied last.
  lemma {:induction false} AppliedWasPlanned(ops: seq<Op>, project: string) returns (i: int, j: int)
    ensures project in Run(START, ops).state ==>
              && Applies(ops, project, i, j) && Run(START, ops).state[project] == ops[i].schemas
              && forall k, m :: Applies(ops, project, k, m) ==> m <= j
    ensures project !in Run(START, ops).state ==> forall k, m :: !Applies(ops, project, k, m)
    decreases |ops|
  {
    hide Pending, About;
    if ops == [] {
      i, j := 0, 0;
    } else {
      var front, op := ops[..|ops| - 1], ops[|ops| - 1];
      i, j := AppliedWasPlanned(front, project);
      var p := WhatIsPlanned(front, project);
      assert front + [op] == ops;
      forall k, m ensures Applies(ops, project, k, m) <==>
                          Applies(front, project, k, m) || (m == |front| && IsApply(op) && op.project == project && Pending(front, project, k)) {
        AppliesMore(front, op, project, k, m);
      }
      if IsApply(op) && op.project == project && project in Run(START, front).planned {
        i, j := p, |front|;
        hide IsApply, IsPlan;
        assert Pending(front, project, p);
        assert Applies(ops, project, i, j);
        PendingInside(front, project, p);
      } else if project in Run(START, front).state {
        AppliesInside(front, project, i, j);
      }
    }
  }

  lemma {:induction false} AppliesMore(front: seq<Op>, op: Op, project: string, k: int, m: int)
    ensures Applies(front + [op], project, k, m) <==>
            Applies(front, project, k, m) || (m == |front| && IsApply(op) && op.project == project && Pending(front, project, k))
  {
    hide Pending;
    var ops := front + [op];
    if 0 <= m < |front| {
      assert ops[..m] == front[..m];
    } else if m == |front| {
      assert ops[..m] == front;
    }
  }

  lemma {:induction false} PendingInside(ops: seq<Op>, project: string, i: int)
    requires Pending(ops, project, i)
    ensures 0 <= i < |ops| && IsPlan(ops[i])
  {
  }

  lemma {:induction false} AppliesInside(ops: seq<Op>, project: string, i: int, j: int)
    requires Applies(ops, project, i, j)
    ensures 0 <= i < j < |ops| && IsPlan(ops[i])
  {
    assert ops[..j][i] == ops[i];
  }

  // No plan of the project is left once one is applied, whatever the others do.
  lemma {:induction false} NoPlanStays(l: Local, ops: seq<Op>, project: string)
    requires project !in l.planned
    requires forall op :: op in ops ==> !(IsPlan(op) && op.project == project)
    ensures project !in Run(l, ops).planned && Find(Run(l, ops).state, project) == Find(l.state, project)
    decreases |ops|
  {
    if ops != [] {
      NoPlanStays(l, ops[..|ops| - 1], project);
      assert ops[|ops| - 1] in ops;
    }
  }

  // Applying consumes the plan: applying migrations again without a new plan fails and
  // changes nothing.
  lemma {:induction false} ReapplyFails(l: Local, first: Op, between: seq<Op>, again: Op)
    requires IsApply(first) && again.Apply? && again.project == first.project && again.hasMigrations
    requires forall op :: op in between ==> !(IsPlan(op) && op.project == first.project)
    ensures var before := Run(Next(l, first), between);
            ApplyError(before, again) == Some(NothingPlanned) && Next(before, again) == before
  {
    NoPlanStays(Next(l, first), between, first.project);
  }

  lemma {:induction false} OthersLeave(l: Local, ops: seq<Op>, project: string)
    requires forall op :: op in ops ==> !About(op, project)
    ensures ViewOf(Run(l, ops), project) == ViewOf(l, project)
    decreases |ops|
  {
    hide About, ViewOf, Next;
    if ops != [] {
      var front, op := ops[..|ops| - 1], ops[|ops| - 1];
      OthersLeave(l, front, project);
      assert op in ops;
      NextIsLocal(Run(l, front), Run(l, front), op, project);
    }
  }

  // Without an apply the state of the project stays.
  lemma {:induction false} StateStays(l: Local, ops: seq<Op>, project: string)
    requires forall op :: op in ops ==> !(IsApply(op) && op.project == project)
    ensures Find(Run(l, ops).state, project) == Find(l.state, project)
    decreases |ops|
  {
    if ops != [] {
      StateStays(l, ops[..|ops| - 1], project);
      assert ops[|ops| - 1] in ops;
    }
  }

  // Planning again what was planned and applied reports no changes, whatever the other
  // projects do in between and whatever was only planned since.
  lemma {:induction false} ReplanReportsNothing(l: Local, plan: Op, between: seq<Op>, apply: Op, after: seq<Op>)
    requires IsPlan(plan) && IsApply(apply) && apply.project == plan.project
    requires forall op :: op in between ==> !About(op, plan.project)
    requires forall op :: op in after ==> !(IsApply(op) && op.project == plan.project)
    ensures var end := Run(Next(Run(Next(l, plan), between), apply), after);
            && Find(end.state, plan.project) == Some(plan.schemas)
            && Changed(Find(end.state, plan.project), plan.schemas) == {}
  {
    var planned := Run(Next(l, plan), between);
    OthersLeave(Next(l, plan), between, plan.project);
    assert ViewOf(planned, plan.project).planned == Some(plan.schemas);
    StateStays(Next(planned, apply), after, plan.project);
  }

  // ---------- what a plan without changes changes ----------

  function PlanThenApply(l: Local, project: string, schemas: Schemas, hasMigrations: bool): Local {
    Run(l, [Plan(project, schemas), Apply(project, hasMigrations)])
  }

  lemma {:induction false} PlanApplied(l: Local, project: string, schemas: Schemas, hasMigrations: bool)
    requires project != "" && schemas != map[]
    ensures PlanThenApply(l, project, schemas, hasMigrations).state == l.state[project := schemas]
  {
    var plan, apply := Plan(project, schemas), Apply(project, hasMigrations);
    assert [plan, apply] == ([] + [plan]) + [apply];
    RunMore(l, [], plan);
    RunMore(l, [] + [plan], apply);
  }

  // The aliases that a plan leaves out hold nothing but space.
  ghost predicate DropsOnlyBlank(current: Option<Schemas>, schemas: Schemas) {
    current.Some? ==> forall a :: a in current.value && a !in schemas ==> NormalizeHcl(current.value[a]) == ""
  }

  lemma {:induction false} BlankNormalizes()
    ensures NormalizeHcl("") == ""
  {
  }

  // A plan that reports no changes, planned and applied, leaves the project's schemas
  // what they were up to surrounding space, an absent one counting as blank, if and
  // only if it drops only blank ones.
  lemma {:induction false} QuietPlanKeepsSchemas(l: Local, project: string, schemas: Schemas, hasMigrations: bool)
    requires project != "" && schemas != map[] && Changed(Find(l.state, project), schemas) == {}
    ensures var end := PlanThenApply(l, project, schemas, hasMigrations);
            (forall a :: NormalizeHcl(Existing(Find(end.state, project), a)) == NormalizeHcl(Existing(Find(l.state, project), a)))
            <==> DropsOnlyBlank(Find(l.state, project), schemas)
  {
    hide TrimSpace, Changed;
    var current := Find(l.state, project);
    PlanApplied(l, project, schemas, hasMigrations);
    BlankNormalizes();
    forall a | a in schemas ensures NormalizeHcl(Existing(current, a)) == NormalizeHcl(schemas[a]) {
      NoneChanged(current, schemas, a);
    }
    if forall a :: NormalizeHcl(Existing(Some(schemas), a)) == NormalizeHcl(Existing(current, a)) {
      forall a | current.Some? && a in current.value && a !in schemas ensures NormalizeHcl(current.value[a]) == "" {
        assert NormalizeHcl(Existing(Some(schemas), a)) == NormalizeHcl(Existing(current, a));
      }
    }
  }

  lemma {:induction false} NoneChanged(current: Option<Schemas>, schemas: Schemas, alias: string)
    requires Changed(current, schemas) == {} && alias in schemas
    ensures Unchanged(current, alias, schemas[alias])
  {
    hide Unchanged;
    assert alias !in Changed(current, schemas);
  }

  // Two answers of GetState that a reader takes for the same.
  predicate SameAnswer(a: Result<string>, b: Result<string>) {
    match (a, b)
    case (Ok(x), Ok(y)) => NormalizeHcl(x) == NormalizeHcl(y)
    case (Err(_), Err(_)) => true
    case _ => false
  }

  // GetState answers every alias as before if and only if the plan has just the
  // project's aliases: a blank new one turns an error into an answer, a dropped one
  // an answer into an error.
  lemma {:induction false} QuietPlanKeepsAnswers(l: Local, project: string, schemas: Schemas, hasMigrations: bool)
    requires project != "" && schemas != map[] && Changed(Find(l.state, project), schemas) == {}
    ensures var end := PlanThenApply(l, project, schemas, hasMigrations);
            (forall a :: SameAnswer(StateOf(end, project, a), StateOf(l, project, a)))
            <==> project in l.state && schemas.Keys == l.state[project].Keys
  {
    hide TrimSpace, Changed;
    var end := PlanThenApply(l, project, schemas, hasMigrations);
    PlanApplied(l, project, schemas, hasMigrations);
    forall a | a in schemas ensures NormalizeHcl(Existing(Find(l.state, project), a)) == NormalizeHcl(schemas[a]) {
      NoneChanged(Find(l.state, project), schemas, a);
    }
    var some :| some in schemas;
    if forall a :: SameAnswer(StateOf(end, project, a), StateOf(l, project, a)) {
      assert SameAnswer(StateOf(end, project, some), StateOf(l, project, some));
      forall a ensures a in schemas <==> a in l.state[project] {
        assert SameAnswer(StateOf(end, project, a), StateOf(l, project, a));
      }
    }
  }

  // So leaving an alias out is no change to a plan, yet applying it forgets the alias.
  lemma {:induction false} DroppedAliasIsNoChange(l: Local, project: string, alias: string)
    requires project in l.state && alias in l.state[project] && project != ""
    requires Without(l.state[project], alias) != map[]
    ensures var fewer := Without(l.state[project], alias);
            && Changed(Find(l.state, project), fewer) == {}
            && StateOf(PlanThenApply(l, project, fewer, false), project, alias) == Err(StateNotFound)
            && PlanThenApply(l, project, fewer, false).state == l.state[project := fewer]
  {
    PlanApplied(l, project, Without(l.state[project], alias), false);
  }

  // And a new alias with a blank schema is no change, yet applying it adds the alias.
  lemma {:induction false} BlankAliasIsNoChange(l: Local, project: string, alias: string, blank: string)
    requires project in l.state && alias !in l.state[project] && project != "" && NormalizeHcl(blank) == ""
    ensures var more := l.state[project][alias := blank];
            && Changed(Find(l.state, project), more) == {}
            && StateOf(l, project, alias) == Err(StateNotFound)
            && StateOf(PlanThenApply(l, project, more, false), project, alias) == Ok(blank)
  {
    var more := l.state[project][alias := blank];
    assert alias in more;
    BlankNormalizes();
    hide TrimSpace;
    PlanApplied(l, project, more, false);
  }
}
