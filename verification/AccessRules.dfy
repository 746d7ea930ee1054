// The access rules in words of their own, role by role and prefix by prefix, and that
// permissions.ts, permission-checker.ts and crud.ts decide by just these rules.
module AccessRules {
  import opened Text
  import opened Sql
  import opened SqlText
  import opened Permissions
  import opened Crud

  // ---------- roles ----------

  // "public" is everyone, "authenticated" every user, any other role those who have it.
  ghost predicate Holds(user: Option<User>, roles: seq<string>) {
    || "public" in roles
    || (user.Some? && ("authenticated" in roles || exists r :: r in roles && r in user.value.roles))
  }

  // The same for a list in which "owner" is no role but the owner rule.
  ghost predicate HoldsOther(user: Option<User>, roles: seq<string>) {
    || "public" in roles
    || (user.Some? && ("authenticated" in roles || exists r :: r in roles && r in user.value.roles && r != "owner"))
  }

  lemma {:induction false} RoleNames()
    ensures "public" != "authenticated" && "public" != "owner" && "authenticated" != "owner" && "owner" != "admin"
    ensures "public" != "admin" && "authenticated" != "admin"
  {
    assert |"public"| == 6 && |"authenticated"| == 13 && |"owner"| == |"admin"| == 5;
    assert "owner"[0] == 'o' && "admin"[0] == 'a';
  }

  lemma {:induction false} HoldsIs(user: Option<User>, roles: seq<string>)
    ensures Holds(user, roles) <==> exists role :: role in roles && HasRole(user, role)
    ensures HoldsOther(user, roles) <==> exists role :: role in roles && role != "owner" && HasRole(user, role)
  {
    RoleNames();
    if "public" in roles {
      assert HasRole(user, "public");
    }
    if "authenticated" in roles && user.Some? {
      assert HasRole(user, "authenticated");
    }
    forall r | r in roles && user.Some? && r in user.value.roles ensures HasRole(user, r) {
    }
  }

  // ---------- tables ----------

  ghost predicate Sets(entry: TablePermissions, op: Operation, roles: Option<seq<string>>) {
    match op
    case SelectOp => entry.select == roles
    case InsertOp => entry.insert == roles
    case UpdateOp => entry.update == roles
    case DeleteOp => entry.delete == roles
  }

  // The file has no entry of this name, or one that says nothing of the operation.
  ghost predicate Silent(config: Config, name: string, op: Operation) {
    config.tables.Some? && name in config.tables.value ==> Sets(config.tables.value[name], op, None)
  }

  ghost predicate Says(config: Config, name: string, op: Operation, roles: seq<string>) {
    config.tables.Some? && name in config.tables.value && Sets(config.tables.value[name], op, Some(roles))
  }

  ghost predicate OwnedBy(config: Config, table: string, column: string) {
    var named := if config.ownerColumn.Some? then config.ownerColumn.value else map[];
    if table in named then column == named[table]
    else if "_default" in named then column == named["_default"]
    else column == "user_id"
  }

  // By a list: whoever holds another role than owner has all rows; with owner in the
  // list every other user has their own; nobody else has any.
  ghost predicate Decided(check: Check, config: Config, table: string, user: Option<User>, roles: seq<string>) {
    && (check == Allowed(None) <==> HoldsOther(user, roles))
    && (check.Allowed? <==> HoldsOther(user, roles) || ("owner" in roles && user.Some?))
    && (check.Allowed? && !HoldsOther(user, roles) ==>
          && check.filter.Some? && check.filter.value.userId == user.value.id
          && OwnedBy(config, table, check.filter.value.column))
  }

  lemma {:induction false} ListDecides(config: Config, table: string, op: Operation, user: Option<User>)
    ensures Decided(CheckTable(config, table, op, user), config, table, user, TableRoles(config, table, op))
  {
    hide TableRoles, HasRole;
    HoldsIs(user, TableRoles(config, table, op));
    hide HoldsOther;
  }

  // The table's own entry decides when it speaks of the operation, whatever _default says ...
  lemma {:induction false} OwnEntryDecides(config: Config, table: string, op: Operation, user: Option<User>, roles: seq<string>)
    requires Says(config, table, op, roles)
    ensures Decided(CheckTable(config, table, op, user), config, table, user, roles)
  {
    hide Decided, CheckTable;
    ListDecides(config, table, op, user);
  }

  // ... else _default does ...
  lemma {:induction false} DefaultEntryDecides(config: Config, table: string, op: Operation, user: Option<User>, roles: seq<string>)
    requires Silent(config, table, op) && Says(config, "_default", op, roles)
    ensures Decided(CheckTable(config, table, op, user), config, table, user, roles)
  {
    hide Decided, CheckTable;
    ListDecides(config, table, op, user);
  }

  // ... else the built-in rule: any user selects and inserts, admins update all rows and
  // every other user their own, admins delete.
  lemma {:induction false} BuiltInDecides(config: Config, table: string, op: Operation, user: Option<User>)
    requires Silent(config, table, op) && Silent(config, "_default", op)
    ensures var check := CheckTable(config, table, op, user);
            match op
            case SelectOp => (check.Allowed? <==> user.Some?) && (check.Allowed? ==> check == Allowed(None))
            case InsertOp => (check.Allowed? <==> user.Some?) && (check.Allowed? ==> check == Allowed(None))
            case UpdateOp =>
              && (check.Allowed? <==> user.Some?)
              && (check == Allowed(None) <==> user.Some? && "admin" in user.value.roles)
              && (check.Allowed? && check != Allowed(None) ==>
                    check.filter.value.userId == user.value.id && OwnedBy(config, table, check.filter.value.column))
            case DeleteOp =>
              && (check.Allowed? <==> user.Some? && "admin" in user.value.roles)
              && (check.Allowed? ==> check == Allowed(None))
  {
    RoleNames();
    ListDecides(config, table, op, user);
    BuiltInLists(config, table, op);
    hide CheckTable, TableRoles, OwnedBy;
    var signedIn, owners, admins := ["authenticated"], ["owner", "admin"], ["admin"];
    assert forall r :: r in signedIn <==> r == "authenticated";
    assert forall r :: r in owners <==> r == "owner" || r == "admin" by {
      assert owners[0] == "owner" && owners[1] == "admin";
    }
    assert forall r :: r in admins <==> r == "admin";
  }

  lemma {:induction false} BuiltInLists(config: Config, table: string, op: Operation)
    requires Silent(config, table, op) && Silent(config, "_default", op)
    ensures TableRoles(config, table, op) ==
            match op
            case SelectOp => ["authenticated"]
            case InsertOp => ["authenticated"]
            case UpdateOp => ["owner", "admin"]
            case DeleteOp => ["admin"]
  {
  }

  // ---------- columns ----------

  ghost predicate Admin(user: Option<User>) {
    user.Some? && "admin" in user.value.roles
  }

  ghost predicate OwnerOrAdmin(user: Option<User>) {
    user.Some? && ("owner" in user.value.roles || "admin" in user.value.roles)
  }

  // The column's own entry decides alone; a list it does not have is no restriction.
  // Without an entry its prefix decides.
  ghost predicate ColumnOpen(config: Config, table: string, column: string, op: Operation, user: Option<User>) {
    if config.tables.Some? && table in config.tables.value && config.tables.value[table].columns.Some?
      && column in config.tables.value[table].columns.value then
      var entry := config.tables.value[table].columns.value[column];
      match op
      case SelectOp => entry.select.None? || Holds(user, entry.select.value)
      case InsertOp => entry.insert.None? || Holds(user, entry.insert.value)
      case UpdateOp => entry.update.None? || Holds(user, entry.update.value)
      case DeleteOp => true
    else
      match op
      case SelectOp =>
        if "s_" <= column then OwnerOrAdmin(user)
        else if Restricted(column) then Admin(user)
        else user.Some?
      case InsertOp => !("_" <= column)
      case UpdateOp =>
        if Restricted(column) then Admin(user)
        else if "_" <= column then false
        else OwnerOrAdmin(user)
      case DeleteOp => true
  }

  lemma {:induction false} PrefixIs(column: string)
    ensures ParseColumnPrefix(column) == Sensitive <==> "s_" <= column
    ensures ParseColumnPrefix(column) == Critical || ParseColumnPrefix(column) == Private <==> Restricted(column)
    ensures ParseColumnPrefix(column) == System <==> "_" <= column
  {
    assert "s_"[0] == 's' && "c_"[0] == 'c' && "p_"[0] == 'p' && "_"[0] == '_';
    if "s_" <= column || "c_" <= column || "p_" <= column || "_" <= column {
      assert column[0] == 's' || column[0] == 'c' || column[0] == 'p' || column[0] == '_';
    }
  }

  lemma {:induction false} HeldByPrefix(user: Option<User>)
    ensures Holds(user, ["owner", "admin"]) <==> OwnerOrAdmin(user)
    ensures Holds(user, ["admin"]) <==> Admin(user)
    ensures Holds(user, ["authenticated"]) <==> user.Some?
    ensures !Holds(user, [])
  {
    RoleNames();
    var both := ["owner", "admin"];
    assert both[0] == "owner" && both[1] == "admin";
    assert ["admin"][0] == "admin" && ["authenticated"][0] == "authenticated";
  }

  lemma {:induction false} ColumnRule(config: Config, table: string, column: string, op: Operation, user: Option<User>)
    ensures ColumnAllowed(config, table, column, op, user) <==> ColumnOpen(config, table, column, op, user)
  {
    PrefixIs(column);
    HeldByPrefix(user);
    var roles := ColumnRoles(GetColumnPermissions(config, table, column), op);
    if roles.Some? {
      HoldsIs(user, roles.value);
    }
    hide Holds, HasRole, OwnerOrAdmin, Admin, Restricted;
  }

  // A select shows a column if and only if it is open to the user and, for select-all,
  // not a c_ or p_ column hidden from all but admins.
  lemma {:induction false} ShownColumns(config: Config, table: string, user: Option<User>, open: bool, columns: seq<string>, column: string)
    ensures column in Having(config, table, user, open, columns, Keep) <==>
            && column in columns && ColumnOpen(config, table, column, SelectOp, user)
            && (open && Restricted(column) ==> Admin(user))
    ensures column in Having(config, table, user, open, columns, Deny) <==>
            && column in columns && !ColumnOpen(config, table, column, SelectOp, user)
            && (open && Restricted(column) ==> Admin(user))
  {
    PrefixIs(column);
    ColumnRule(config, table, column, SelectOp, user);
    hide ColumnOpen, ColumnAllowed, Restricted;
  }

  // ---------- requests ----------

  // The list that applies to an operation on a table.
  ghost predicate Applies(config: Config, table: string, op: Operation, roles: seq<string>) {
    if !Silent(config, table, op) then Says(config, table, op, roles)
    else if !Silent(config, "_default", op) then Says(config, "_default", op, roles)
    else
      match op
      case SelectOp => roles == ["authenticated"]
      case InsertOp => roles == ["authenticated"]
      case UpdateOp => roles == ["owner", "admin"]
      case DeleteOp => roles == ["admin"]
  }

  ghost predicate TableOpen(config: Config, table: string, op: Operation, user: Option<User>) {
    exists roles :: Applies(config, table, op, roles) && (HoldsOther(user, roles) || ("owner" in roles && user.Some?))
  }

  lemma {:induction false} TableRule(config: Config, table: string, op: Operation, user: Option<User>)
    ensures CheckTable(config, table, op, user).Allowed? <==> TableOpen(config, table, op, user)
  {
    var roles := TableRoles(config, table, op);
    assert forall list :: Applies(config, table, op, list) <==> list == roles;
    hide TableRoles, Applies, CheckTable, HoldsOther;
    ListDecides(config, table, op, user);
  }

  ghost predicate Permitted(config: Config, table: string, user: Option<User>, request: Request) {
    match request
    case SelectRequest(_, select, _, _, _) =>
      && TableOpen(config, table, SelectOp, user)
      && (select.Some? ==> forall c :: c in select.value ==> ColumnOpen(config, table, c, SelectOp, user))
    case InsertRequest(data) =>
      TableOpen(config, table, InsertOp, user) && forall c :: c in Keys(data) ==> ColumnOpen(config, table, c, InsertOp, user)
    case UpdateRequest(_, data) =>
      TableOpen(config, table, UpdateOp, user) && forall c :: c in Keys(data) ==> ColumnOpen(config, table, c, UpdateOp, user)
    case DeleteRequest(_) => TableOpen(config, table, DeleteOp, user)
  }

  // A text is sent to the database for exactly the permitted requests: the table open
  // to the user, and every column they name or write.
  lemma {:induction false} SentIffPermitted(config: Config, user: Option<User>, columns: seq<string>, table: string, request: Request)
    ensures Compile(config, user, columns, table, request).Send? <==> Permitted(config, table, user, request)
  {
    hide TableOpen, ColumnOpen, CheckTable, ColumnAllowed, ApplyRls, SelectText, InsertText, UpdateText, DeleteText, Having, FirstDenied;
    match request {
      case SelectRequest(_, select, _, _, _) =>
        TableRule(config, table, SelectOp, user);
        if select.Some? {
          DeniedNames(config, table, user, select.value);
        }
      case InsertRequest(data) =>
        TableRule(config, table, InsertOp, user);
        WrittenColumns(config, table, Keys(data), InsertOp, user);
      case UpdateRequest(_, data) =>
        TableRule(config, table, UpdateOp, user);
        WrittenColumns(config, table, Keys(data), UpdateOp, user);
      case DeleteRequest(_) =>
        TableRule(config, table, DeleteOp, user);
    }
  }

  lemma {:induction false} DeniedNames(config: Config, table: string, user: Option<User>, select: seq<string>)
    ensures Having(config, table, user, false, select, Deny) == [] <==>
            forall c :: c in select ==> ColumnOpen(config, table, c, SelectOp, user)
  {
    hide ColumnOpen, Having;
    var denied := Having(config, table, user, false, select, Deny);
    forall c ensures c in denied <==> c in select && !ColumnOpen(config, table, c, SelectOp, user) {
      ShownColumns(config, table, user, false, select, c);
    }
    if denied != [] {
      assert denied[0] in denied;
    }
  }

  lemma {:induction false} WrittenColumns(config: Config, table: string, columns: seq<string>, op: Operation, user: Option<User>)
    ensures FirstDenied(config, table, columns, op, user).None? <==> forall c :: c in columns ==> ColumnOpen(config, table, c, op, user)
  {
    hide ColumnOpen, ColumnAllowed;
    NoneDenied(config, table, columns, op, user);
    forall c ensures ColumnAllowed(config, table, c, op, user) <==> ColumnOpen(config, table, c, op, user) {
      ColumnRule(config, table, c, op, user);
    }
  }

  // ---------- refusals ----------

  // The reason names the table if it is closed, else the first column that is.
  ghost predicate IsReason(reason: string, config: Config, table: string, columns: seq<string>, op: Operation, word: string,
                           user: Option<User>) {
    if !TableOpen(config, table, op, user) then reason == "Permission denied for " + word + " on table " + table
    else
      exists i :: 0 <= i < |columns| && !ColumnOpen(config, table, columns[i], op, user)
        && (forall j :: 0 <= j < i ==> ColumnOpen(config, table, columns[j], op, user))
        && reason == "Permission denied for " + word + " on column " + columns[i]
  }

  lemma {:induction false} FirstDeniedIs(config: Config, table: string, columns: seq<string>, op: Operation, user: Option<User>)
    returns (i: nat)
    requires FirstDenied(config, table, columns, op, user).Some?
    ensures i < |columns| && FirstDenied(config, table, columns, op, user) == Some(columns[i])
    ensures !ColumnOpen(config, table, columns[i], op, user)
    ensures forall j :: 0 <= j < i ==> ColumnOpen(config, table, columns[j], op, user)
  {
    ColumnRule(config, table, columns[0], op, user);
    hide ColumnAllowed, ColumnOpen;
    i := 0;
    if ColumnAllowed(config, table, columns[0], op, user) {
      var k := FirstDeniedIs(config, table, columns[1..], op, user);
      i := k + 1;
      assert forall j :: 0 < j < i ==> columns[j] == columns[1..][j - 1];
    }
  }

  lemma {:induction false} DeniedBecause(config: Config, table: string, columns: seq<string>, op: Operation, word: string, user: Option<User>)
    requires word == OperationName(op) && op != DeleteOp && CheckCrud(config, table, op, user, Some(columns)).Denied?
    ensures IsReason(CheckCrud(config, table, op, user, Some(columns)).reason, config, table, columns, op, word, user)
  {
    TableRule(config, table, op, user);
    hide TableOpen, ColumnOpen, TableRoles, HasRole, AdmittedByRole, OwnerColumn;
    if CheckTable(config, table, op, user).Allowed? {
      var i := FirstDeniedIs(config, table, columns, op, user);
    }
  }

  // What a refused request is answered.
  lemma {:induction false} RefusedBecause(config: Config, user: Option<User>, columns: seq<string>, table: string, request: Request)
    requires Compile(config, user, columns, table, request).Refuse?
    ensures var reason := Compile(config, user, columns, table, request).reason;
            match request
            case SelectRequest(_, select, _, _, _) =>
              if select.Some? && exists c :: c in select.value && !ColumnOpen(config, table, c, SelectOp, user)
              then reason == "Permission denied for columns: " + Join(Having(config, table, user, false, select.value, Deny), ", ")
              else reason == "Permission denied for select on table " + table
            case InsertRequest(data) => IsReason(reason, config, table, Keys(data), InsertOp, "insert", user)
            case UpdateRequest(_, data) => IsReason(reason, config, table, Keys(data), UpdateOp, "update", user)
            case DeleteRequest(_) => reason == "Permission denied for delete on table " + table
  {
    hide TableOpen, ColumnOpen, CheckTable, FirstDenied, ApplyRls, SelectText, InsertText, UpdateText, DeleteText, Having, IsReason, CheckCrud;
    match request {
      case SelectRequest(_, select, _, _, _) =>
        if select.Some? {
          DeniedNames(config, table, user, select.value);
        }
        TableReason(config, table, SelectOp, user);
      case InsertRequest(data) =>
        DeniedBecause(config, table, Keys(data), InsertOp, "insert", user);
      case UpdateRequest(_, data) =>
        DeniedBecause(config, table, Keys(data), UpdateOp, "update", user);
      case DeleteRequest(_) =>
        TableReason(config, table, DeleteOp, user);
    }
  }

  lemma {:induction false} TableReason(config: Config, table: string, op: Operation, user: Option<User>)
    ensures var check := CheckTable(config, table, op, user);
            check.Denied? ==> (op == SelectOp ==> check.reason == "Permission denied for select on table " + table)
                              && (op == DeleteOp ==> check.reason == "Permission denied for delete on table " + table)
  {
    hide AdmittedByRole, TableRoles, OwnerColumn;
    assert "Permission denied for " + "select" + " on table " == "Permission denied for select on table ";
    assert "Permission denied for " + "delete" + " on table " == "Permission denied for delete on table ";
  }
}
