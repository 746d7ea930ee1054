// permissions.ts and permission-checker.ts: who may touch which table and column.
module Permissions {
  import opened Text

  type Role = string

  datatype Operation = SelectOp | InsertOp | UpdateOp | DeleteOp

  datatype ColumnPermissions = ColumnPermissions(
    select: Option<seq<Role>>, insert: Option<seq<Role>>, update: Option<seq<Role>>)

  datatype TablePermissions = TablePermissions(
    select: Option<seq<Role>>, insert: Option<seq<Role>>, update: Option<seq<Role>>, delete: Option<seq<Role>>,
    columns: Option<map<string, ColumnPermissions>>)

  // The parsed permissions file. "_default" is an ordinary key of either map.
  datatype Config = Config(ownerColumn: Option<map<string, string>>, tables: Option<map<string, TablePermissions>>)

  datatype User = User(id: string, roles: seq<Role>)

  datatype Prefix = Sensitive | Critical | Private | System | Plain

  datatype RlsFilter = RlsFilter(column: string, userId: string)

  datatype Check = Allowed(filter: Option<RlsFilter>) | Denied(reason: string)

  function OperationName(op: Operation): string {
    match op
    case SelectOp => "select"
    case InsertOp => "insert"
    case UpdateOp => "update"
    case DeleteOp => "delete"
  }

  // ---------- permissions.ts ----------

  function ParseColumnPrefix(column: string): Prefix {
    if "s_" <= column then Sensitive
    else if "c_" <= column then Critical
    else if "p_" <= column then Private
    else if "_" <= column then System
    else Plain
  }

  function DefaultSelect(prefix: Prefix): seq<Role> {
    match prefix
    case Sensitive => ["owner", "admin"]
    case Critical => ["admin"]
    case Private => ["admin"]
    case System => ["authenticated"]
    case Plain => ["authenticated"]
  }

  function DefaultUpdate(prefix: Prefix): seq<Role> {
    match prefix
    case Sensitive => ["owner", "admin"]
    case Critical => ["admin"]
    case Private => ["admin"]
    case System => []
    case Plain => ["owner", "admin"]
  }

  function Lookup<V>(m: Option<map<string, V>>, key: string): Option<V> {
    if m.Some? && key in m.value then Some(m.value[key]) else None
  }

  // The ?? operator.
  function OrElse<T>(a: Option<T>, b: Option<T>): Option<T> {
    if a.Some? then a else b
  }

  function RolesFor(perms: TablePermissions, op: Operation): Option<seq<Role>> {
    match op
    case SelectOp => perms.select
    case InsertOp => perms.insert
    case UpdateOp => perms.update
    case DeleteOp => perms.delete
  }

  function BuiltInRoles(op: Operation): seq<Role> {
    match op
    case SelectOp => ["authenticated"]
    case InsertOp => ["authenticated"]
    case UpdateOp => ["owner", "admin"]
    case DeleteOp => ["admin"]
  }

  // The table's own setting, else that of _default, else the built-in one.
  function TableRoles(config: Config, table: string, op: Operation): seq<Role> {
    var own := Lookup(config.tables, table);
    var default := Lookup(config.tables, "_default");
    var ownRoles := if own.Some? then RolesFor(own.value, op) else None;
    var defaultRoles := if default.Some? then RolesFor(default.value, op) else None;
    OrElse(OrElse(ownRoles, defaultRoles), Some(BuiltInRoles(op))).value
  }

  // Column settings are taken from the table only; _default has none to give.
  function GetColumnPermissions(config: Config, table: string, column: string): ColumnPermissions {
    var own := Lookup(config.tables, table);
    var configured := if own.Some? then Lookup(own.value.columns, column) else None;
    if configured.Some? then configured.value
    else
      var prefix := ParseColumnPrefix(column);
      ColumnPermissions(Some(DefaultSelect(prefix)),
                        if prefix == System then Some([]) else None,
                        Some(DefaultUpdate(prefix)))
  }

  function OwnerColumn(config: Config, table: string): string {
    OrElse(OrElse(Lookup(config.ownerColumn, table), Lookup(config.ownerColumn, "_default")), Some("user_id")).value
  }

  // ---------- permission-checker.ts ----------

  predicate HasRole(user: Option<User>, role: Role) {
    if role == "public" then true
    else if role == "authenticated" then user.Some?
    else user.Some? && role in user.value.roles
  }

  // Some role other than owner lets the user in.
  predicate AdmittedByRole(config: Config, table: string, op: Operation, user: Option<User>) {
    exists role :: role in TableRoles(config, table, op) && role != "owner" && HasRole(user, role)
  }

  function CheckTable(config: Config, table: string, op: Operation, user: Option<User>): Check {
    if AdmittedByRole(config, table, op, user) then Allowed(None)
    else if "owner" in TableRoles(config, table, op) && user.Some? then
      Allowed(Some(RlsFilter(OwnerColumn(config, table), user.value.id)))
    else Denied("Permission denied for " + OperationName(op) + " on table " + table)
  }

  function ColumnRoles(perms: ColumnPermissions, op: Operation): Option<seq<Role>> {
    match op
    case SelectOp => perms.select
    case InsertOp => perms.insert
    case UpdateOp => perms.update
    case DeleteOp => None
  }

  // Here owner is an ordinary role name: no row filter, and no rule about rows.
  predicate ColumnAllowed(config: Config, table: string, column: string, op: Operation, user: Option<User>) {
    var roles := ColumnRoles(GetColumnPermissions(config, table, column), op);
    roles.None? || exists role :: role in roles.value && HasRole(user, role)
  }

  function ColumnDenial(column: string, op: Operation): string {
    "Permission denied for " + OperationName(op) + " on column " + column
  }

  // The first column that is not allowed, if any.
  function FirstDenied(config: Config, table: string, columns: seq<string>, op: Operation, user: Option<User>): Option<string> {
    if columns == [] then None
    else if !ColumnAllowed(config, table, columns[0], op, user) then Some(columns[0])
    else FirstDenied(config, table, columns[1..], op, user)
  }

  function CheckCrud(config: Config, table: string, op: Operation, user: Option<User>, columns: Option<seq<string>>): Check {
    var tableCheck := CheckTable(config, table, op, user);
    if tableCheck.Denied? || columns.None? || op == DeleteOp then tableCheck
    else
      match FirstDenied(config, table, columns.value, op, user)
      case Some(column) => Denied(ColumnDenial(column, op))
      case None => tableCheck
  }

  // ---------- column filtering ----------

  // Columns for admins only, by the naming rules.
  predicate Restricted(column: string) {
    "c_" <= column || "p_" <= column
  }

  // c_ and p_ columns are left out of an open selection unless the user is an admin.
  predicate Hidden(column: string, user: Option<User>) {
    var prefix := ParseColumnPrefix(column);
    (prefix == Critical || prefix == Private) && !(user.Some? && "admin" in user.value.roles)
  }

  datatype Verdict = Keep | Deny | Hide

  function ColumnVerdict(config: Config, table: string, user: Option<User>, open: bool, column: string): Verdict {
    if open && Hidden(column, user) then Hide
    else if ColumnAllowed(config, table, column, SelectOp, user) then Keep
    else Deny
  }

  // The columns with the given verdict, in their order.
  function Having(config: Config, table: string, user: Option<User>, open: bool, columns: seq<string>, v: Verdict): (r: seq<string>)
    ensures forall c :: c in r <==> c in columns && ColumnVerdict(config, table, user, open, c) == v
  {
    if columns == [] then []
    else
      var rest := Having(config, table, user, open, columns[1..], v);
      if ColumnVerdict(config, table, user, open, columns[0]) == v then [columns[0]] + rest else rest
  }

  function ColumnsToCheck(all: seq<string>, requested: Option<seq<string>>): seq<string> {
    OrElse(requested, Some(all)).value
  }

  lemma {:induction false} HavingExtend(config: Config, table: string, user: Option<User>, open: bool, columns: seq<string>, c: string, v: Verdict)
    ensures Having(config, table, user, open, columns + [c], v) ==
            Having(config, table, user, open, columns, v) +
            (if ColumnVerdict(config, table, user, open, c) == v then [c] else [])
  {
    if columns == [] {
      assert columns + [c] == [c];
    } else {
      HavingExtend(config, table, user, open, columns[1..], c, v);
      assert (columns + [c])[1..] == columns[1..] + [c];
    }
  }

  method FilterColumns(config: Config, table: string, all: seq<string>, user: Option<User>, requested: Option<seq<string>>)
    returns (allowed: seq<string>, denied: seq<string>)
    ensures allowed == Having(config, table, user, requested.None?, ColumnsToCheck(all, requested), Keep)
    ensures denied == Having(config, table, user, requested.None?, ColumnsToCheck(all, requested), Deny)
  {
    allowed, denied := [], [];
    var columns := ColumnsToCheck(all, requested);
    for i := 0 to |columns|
      invariant allowed == Having(config, table, user, requested.None?, columns[..i], Keep)
      invariant denied == Having(config, table, user, requested.None?, columns[..i], Deny)
    {
      var column := columns[i];
      assert columns[..i + 1] == columns[..i] + [column];
      HavingExtend(config, table, user, requested.None?, columns[..i], column, Keep);
      HavingExtend(config, table, user, requested.None?, columns[..i], column, Deny);
      if requested.None? {
        var prefix := ParseColumnPrefix(column);
        if prefix == Critical || prefix == Private {
          if !(user.Some? && "admin" in user.value.roles) {
            continue;
          }
        }
      }
      if ColumnAllowed(config, table, column, SelectOp, user) {
        allowed := allowed + [column];
      } else {
        denied := denied + [column];
      }
    }
    assert columns[..|columns|] == columns;
  }

  // s is the interleaving of three subsequences: each step takes the head of one.
  ghost predicate Interleaves(s: seq<string>, a: seq<string>, b: seq<string>, c: seq<string>)
    decreases |s|
  {
    if s == [] then a == b == c == []
    else
      || (a != [] && a[0] == s[0] && Interleaves(s[1..], a[1..], b, c))
      || (b != [] && b[0] == s[0] && Interleaves(s[1..], a, b[1..], c))
      || (c != [] && c[0] == s[0] && Interleaves(s[1..], a, b, c[1..]))
  }

  lemma {:induction false} InterleavesMore(x: string, s: seq<string>, a: seq<string>, b: seq<string>, c: seq<string>)
    requires Interleaves(s, a, b, c)
    ensures Interleaves([x] + s, [x] + a, b, c) && Interleaves([x] + s, a, [x] + b, c) && Interleaves([x] + s, a, b, [x] + c)
  {
    assert ([x] + s)[1..] == s && ([x] + a)[1..] == a && ([x] + b)[1..] == b && ([x] + c)[1..] == c;
  }

  lemma {:induction false} HavingFirst(config: Config, table: string, user: Option<User>, open: bool, columns: seq<string>, v: Verdict)
    requires columns != []
    ensures Having(config, table, user, open, columns, v) ==
            if ColumnVerdict(config, table, user, open, columns[0]) == v
            then [columns[0]] + Having(config, table, user, open, columns[1..], v)
            else Having(config, table, user, open, columns[1..], v)
  {
    hide ColumnVerdict;
  }

  // Nothing is lost, duplicated or reordered: the allowed, denied and hidden
  // columns interleave to the checked list, and no column is in two of them.
  lemma {:induction false} FilterPartitions(config: Config, table: string, user: Option<User>, open: bool, columns: seq<string>)
    ensures var allowed := Having(config, table, user, open, columns, Keep);
            var denied := Having(config, table, user, open, columns, Deny);
            var hidden := Having(config, table, user, open, columns, Hide);
            && Interleaves(columns, allowed, denied, hidden)
            && (forall c :: !(c in allowed && c in denied) && !(c in allowed && c in hidden) && !(c in denied && c in hidden))
            && (!open ==> hidden == [])
  {
    if columns != [] {
      var rest := columns[1..];
      FilterPartitions(config, table, user, open, rest);
      HavingFirst(config, table, user, open, columns, Keep);
      HavingFirst(config, table, user, open, columns, Deny);
      HavingFirst(config, table, user, open, columns, Hide);
      hide Having, Interleaves;
      InterleavesMore(columns[0], rest, Having(config, table, user, open, rest, Keep),
                      Having(config, table, user, open, rest, Deny), Having(config, table, user, open, rest, Hide));
      assert columns == [columns[0]] + rest;
    }
  }

  // An open selection never yields a c_ or p_ column to someone who is not an
  // admin, whatever the configuration says about that column.
  lemma {:induction false} OpenSelectionHidesCritical(config: Config, table: string, user: Option<User>, columns: seq<string>, column: string)
    requires column in Having(config, table, user, true, columns, Keep)
    requires Restricted(column)
    ensures user.Some? && "admin" in user.value.roles
  {
    assert column[0] == 'c' || column[0] == 'p';
    assert ParseColumnPrefix(column) == Critical || ParseColumnPrefix(column) == Private;
  }

  // Checking the allowed columns again adds nothing to the table-level check.
  lemma {:induction false} RecheckIsTableCheck(config: Config, table: string, user: Option<User>, open: bool, columns: seq<string>)
    ensures CheckCrud(config, table, SelectOp, user, Some(Having(config, table, user, open, columns, Keep)))
         == CheckTable(config, table, SelectOp, user)
  {
    NoneDenied(config, table, Having(config, table, user, open, columns, Keep), SelectOp, user);
  }

  lemma {:induction false} NoneDenied(config: Config, table: string, columns: seq<string>, op: Operation, user: Option<User>)
    ensures FirstDenied(config, table, columns, op, user).None? <==>
            forall c :: c in columns ==> ColumnAllowed(config, table, c, op, user)
  {
    if columns != [] {
      NoneDenied(config, table, columns[1..], op, user);
      assert forall c :: c in columns <==> c == columns[0] || c in columns[1..];
    }
  }

  // ---------- monotonicity ----------

  // b is a with more roles, or someone signed in where a was anonymous.
  ghost predicate AtLeast(b: Option<User>, a: Option<User>) {
    a.Some? ==> b.Some? && b.value.id == a.value.id && forall r :: r in a.value.roles ==> r in b.value.roles
  }

  lemma {:induction false} CheckTableMonotone(config: Config, table: string, op: Operation, a: Option<User>, b: Option<User>)
    requires AtLeast(b, a) && CheckTable(config, table, op, a).Allowed?
    ensures CheckTable(config, table, op, b).Allowed?
    ensures CheckTable(config, table, op, b).filter == None
         || CheckTable(config, table, op, b).filter == CheckTable(config, table, op, a).filter
  {
    if AdmittedByRole(config, table, op, a) {
      var role :| role in TableRoles(config, table, op) && role != "owner" && HasRole(a, role);
      assert HasRole(b, role);
    }
  }

  lemma {:induction false} ColumnAllowedMonotone(config: Config, table: string, column: string, op: Operation, a: Option<User>, b: Option<User>)
    requires AtLeast(b, a) && ColumnAllowed(config, table, column, op, a)
    ensures ColumnAllowed(config, table, column, op, b)
  {
    var roles := ColumnRoles(GetColumnPermissions(config, table, column), op);
    if roles.Some? {
      var role :| role in roles.value && HasRole(a, role);
      assert HasRole(b, role);
    }
  }

  // More roles never lose a column, neither of an open selection nor of a list.
  lemma {:induction false} KeptColumnsMonotone(config: Config, table: string, a: Option<User>, b: Option<User>, open: bool, columns: seq<string>)
    requires AtLeast(b, a)
    ensures forall c :: c in Having(config, table, a, open, columns, Keep) ==> c in Having(config, table, b, open, columns, Keep)
    ensures !open && Having(config, table, a, open, columns, Deny) == [] ==> Having(config, table, b, open, columns, Deny) == []
  {
    forall c | c in columns && ColumnAllowed(config, table, c, SelectOp, a)
      ensures ColumnAllowed(config, table, c, SelectOp, b)
    {
      ColumnAllowedMonotone(config, table, c, SelectOp, a, b);
    }
    var denied := Having(config, table, b, open, columns, Deny);
    assert denied != [] ==> denied[0] in denied;
    assert !open && denied != [] ==> denied[0] in Having(config, table, a, open, columns, Deny);
  }
}
