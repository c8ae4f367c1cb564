/** The permission evaluator: a fixed allow-list of table names, the per-user
    map from table name to CRUD flags and scope, the two decision procedures
    `canPerform` and `canAccessRecord`, and grant/revoke over the repository. */
module PermissionsService {
  import opened Common
  import opened PermissionsRepository

  /** The `@@map` names of the tables permissions may name. */
  const AllowedTables: seq<string> := ["audit_logs", "enums", "messages", "tenants", "users"]

  predicate IsAllowedTable(tableName: string) {
    tableName in AllowedTables
  }

  /** `validateTableName`: nothing on an allowed name, BadRequest otherwise. */
  function ValidateTableName(tableName: string): (r: Option<HttpError>)
    ensures r.None? <==> (tableName == "audit_logs" || tableName == "enums" || tableName == "messages"
                          || tableName == "tenants" || tableName == "users")
    ensures r.Some? ==> r.value == BadRequest("Invalid table name: " + tableName)
  {
    if IsAllowedTable(tableName) then None else Some(BadRequest("Invalid table name: " + tableName))
  }

  /** One entry of `UserPermissions`. */
  datatype TablePermission = TablePermission(
    canCreate: bool, canRead: bool, canUpdate: bool, canDelete: bool, scope: Scope)

  type UserPermissions = map<string, TablePermission>

  function PermissionOf(r: PermissionRecord): TablePermission {
    TablePermission(r.canCreate, r.canRead, r.canUpdate, r.canDelete, r.scope)
  }

  /** The map the loop of `getUserPermissions` builds from `records`, one
      assignment per record in order. */
  function PermissionMap(records: seq<PermissionRecord>): UserPermissions {
    if records == [] then map[]
    else
      var n := |records| - 1;
      PermissionMap(records[..n])[records[n].tableName := PermissionOf(records[n])]
  }

  /** The keys of the map are exactly the table names of the records. */
  lemma {:induction false} PermissionMapKeys(records: seq<PermissionRecord>, t: string)
    ensures t in PermissionMap(records) <==> exists i :: 0 <= i < |records| && records[i].tableName == t
  {
    if records != [] {
      var n := |records| - 1;
      PermissionMapKeys(records[..n], t);
      if t in PermissionMap(records[..n]) {
        var i :| 0 <= i < n && records[..n][i].tableName == t;
        assert records[i].tableName == t;
      }
      if exists i :: 0 <= i < |records| && records[i].tableName == t {
        var i :| 0 <= i < |records| && records[i].tableName == t;
        if i < n { assert records[..n][i].tableName == t; }
      }
    }
  }

  /** The entry for a table is the LAST record for that table: a later record
      for the same table overwrites an earlier one. */
  lemma {:induction false} PermissionMapLastWins(records: seq<PermissionRecord>, i: nat)
    requires i < |records| && LastForTable(records, i)
    ensures records[i].tableName in PermissionMap(records)
    ensures PermissionMap(records)[records[i].tableName] == PermissionOf(records[i])
  {
    var n := |records| - 1;
    if i < n {
      assert records[..n][i] == records[i];
      assert LastForTable(records[..n], i) by {
        forall j | i < j < n ensures records[..n][j].tableName != records[..n][i].tableName {
          assert records[..n][j] == records[j];
        }
      }
      PermissionMapLastWins(records[..n], i);
    }
  }

  /** No later record names the same table as `records[i]`. */
  ghost predicate LastForTable(records: seq<PermissionRecord>, i: int)
    requires 0 <= i < |records|
  {
    forall j :: i < j < |records| ==> records[j].tableName != records[i].tableName
  }

  /** `ActionKey`: the flag `can<Action>` selects. */
  datatype CrudAction = Create | Read | Update | Delete

  function ActionFlag(p: TablePermission, action: CrudAction): bool {
    match action
    case Create => p.canCreate
    case Read => p.canRead
    case Update => p.canUpdate
    case Delete => p.canDelete
  }

  /** The optional `scope` of a `PermissionCheck`. */
  datatype ScopeRequirement = RequireOwn | RequireAll

  datatype PermissionCheck = PermissionCheck(tableName: string, action: CrudAction, scope: Option<ScopeRequirement>)

  /** Reference order of scopes: NONE < OWN < ALL. */
  function ScopeRank(s: Scope): nat {
    match s
    case NONE => 0
    case OWN => 1
    case ALL => 2
  }

  function RequirementRank(req: Option<ScopeRequirement>): nat {
    match req
    case None => 0
    case Some(RequireOwn) => 1
    case Some(RequireAll) => 2
  }

  /** The decision of `canPerform` once the table name is valid and the map is loaded. */
  function Decide(perms: UserPermissions, check: PermissionCheck): (r: bool)
    ensures r <==> check.tableName in perms
                   && ActionFlag(perms[check.tableName], check.action)
                   && RequirementRank(check.scope) <= ScopeRank(perms[check.tableName].scope)
  {
    if check.tableName !in perms then false
    else
      var p := perms[check.tableName];
      if !ActionFlag(p, check.action) then false
      else if check.scope == Some(RequireAll) && p.scope != ALL then false
      else if check.scope == Some(RequireOwn) && p.scope == NONE then false
      else true
  }

  /** The scope rule of `canPerform`, case by case. */
  lemma ScopeRule(perms: UserPermissions, tableName: string, action: CrudAction)
    requires tableName in perms && ActionFlag(perms[tableName], action)
    ensures Decide(perms, PermissionCheck(tableName, action, Some(RequireAll))) <==> perms[tableName].scope == ALL
    ensures Decide(perms, PermissionCheck(tableName, action, Some(RequireOwn))) <==> perms[tableName].scope != NONE
    ensures Decide(perms, PermissionCheck(tableName, action, None))
  {
  }

  /** Asking for less scope never turns an allow into a deny. */
  lemma DecideMonotoneInRequirement(perms: UserPermissions, tableName: string, action: CrudAction,
                                    strong: Option<ScopeRequirement>, weak: Option<ScopeRequirement>)
    requires RequirementRank(weak) <= RequirementRank(strong)
    requires Decide(perms, PermissionCheck(tableName, action, strong))
    ensures Decide(perms, PermissionCheck(tableName, action, weak))
  {
  }

  /** The decision of `canAccessRecord` once the table name is valid and the map is loaded. */
  function DecideRecord(perms: UserPermissions, userId: string, tableName: string,
                        action: CrudAction, recordOwnerId: string): (r: bool)
    ensures r <==> tableName in perms && ActionFlag(perms[tableName], action)
                   && (perms[tableName].scope == ALL
                       || (perms[tableName].scope == OWN && recordOwnerId == userId))
  {
    if tableName !in perms then false
    else
      var p := perms[tableName];
      if !ActionFlag(p, action) then false
      else if p.scope == ALL then true
      else if p.scope == OWN then recordOwnerId == userId
      else false
  }

  /** A record decision is never more generous than the matching table decision
      that asks for OWN scope. */
  lemma DecideRecordImpliesOwn(perms: UserPermissions, userId: string, tableName: string,
                               action: CrudAction, recordOwnerId: string)
    requires DecideRecord(perms, userId, tableName, action, recordOwnerId)
    ensures Decide(perms, PermissionCheck(tableName, action, Some(RequireOwn)))
  {
  }

  /** `canPerform` in terms of the store. */
  function CanPerformOn(rows: seq<PermissionRecord>, userId: string, check: PermissionCheck): Result<bool> {
    match ValidateTableName(check.tableName)
    case Some(e) => Err(e)
    case None => Ok(Decide(PermissionMap(FindManyByUserId(rows, userId)), check))
  }

  /** `canAccessRecord` in terms of the store. */
  function CanAccessRecordOn(rows: seq<PermissionRecord>, userId: string, tableName: string,
                             action: CrudAction, recordOwnerId: string): Result<bool> {
    match ValidateTableName(tableName)
    case Some(e) => Err(e)
    case None => Ok(DecideRecord(PermissionMap(FindManyByUserId(rows, userId)), userId, tableName, action, recordOwnerId))
  }

  /** With one row per key, the user's map holds a table exactly when the store
      has the (userId, tableName) row, and then holds that row's flags and scope. */
  lemma {:induction false} PermissionMapOfStore(rows: seq<PermissionRecord>, userId: string, tableName: string)
    requires UniqueKeys(rows)
    ensures var m := PermissionMap(FindManyByUserId(rows, userId));
      && (tableName in m <==> HasKey(rows, userId, tableName))
      && (HasKey(rows, userId, tableName) ==>
            m[tableName] == PermissionOf(rows[KeyIndex(rows, userId, tableName).value]))
  {
    var records := FindManyByUserId(rows, userId);
    var m := PermissionMap(records);
    PermissionMapKeys(records, tableName);
    if tableName in m {
      var i :| 0 <= i < |records| && records[i].tableName == tableName;
      assert records[i] in records;
      var k :| 0 <= k < |rows| && rows[k] == records[i];
      assert HasKeyAt(rows, k, userId, tableName);
    }
    if HasKey(rows, userId, tableName) {
      var k := KeyIndex(rows, userId, tableName).value;
      assert rows[k] in rows;
      assert rows[k] in records;
      var i :| 0 <= i < |records| && records[i] == rows[k];
      FindManyDistinctTables(rows, userId);
      assert LastForTable(records, i);
      PermissionMapLastWins(records, i);
    }
  }

  /** `canPerform` decided against the store: BadRequest exactly for a table
      outside the allow-list; otherwise true exactly when the user's row for
      the table exists, has the action's flag, and its scope covers the one asked for. */
  lemma CanPerformOnStore(rows: seq<PermissionRecord>, userId: string, check: PermissionCheck)
    requires UniqueKeys(rows)
    ensures CanPerformOn(rows, userId, check).Err? <==> !IsAllowedTable(check.tableName)
    ensures IsAllowedTable(check.tableName) ==>
      (CanPerformOn(rows, userId, check) == Ok(true) <==>
        HasKey(rows, userId, check.tableName)
        && var row := rows[KeyIndex(rows, userId, check.tableName).value];
           ActionFlag(PermissionOf(row), check.action)
           && RequirementRank(check.scope) <= ScopeRank(row.scope))
  {
    PermissionMapOfStore(rows, userId, check.tableName);
  }

  /** `canAccessRecord` decided against the store. */
  lemma CanAccessRecordOnStore(rows: seq<PermissionRecord>, userId: string, tableName: string,
                               action: CrudAction, recordOwnerId: string)
    requires UniqueKeys(rows)
    ensures CanAccessRecordOn(rows, userId, tableName, action, recordOwnerId).Err? <==> !IsAllowedTable(tableName)
    ensures IsAllowedTable(tableName) ==>
      (CanAccessRecordOn(rows, userId, tableName, action, recordOwnerId) == Ok(true) <==>
        HasKey(rows, userId, tableName)
        && var row := rows[KeyIndex(rows, userId, tableName).value];
           ActionFlag(PermissionOf(row), action)
           && (row.scope == ALL || (row.scope == OWN && recordOwnerId == userId)))
  {
    PermissionMapOfStore(rows, userId, tableName);
  }

  /** A user without any row is denied every check on every allowed table. */
  lemma NoRowsDenies(rows: seq<PermissionRecord>, userId: string, check: PermissionCheck)
    requires forall k :: 0 <= k < |rows| ==> rows[k].userId != userId
    requires IsAllowedTable(check.tableName)
    ensures CanPerformOn(rows, userId, check) == Ok(false)
  {
    var r := FindManyByUserId(rows, userId);
    assert forall k :: 0 <= k < |r| ==> r[k] in r && r[k] in rows;
  }

  /** Granting the check's own action with scope ALL makes `canPerform` true,
      whatever the table held before. */
  lemma GrantAllEnables(rows: seq<PermissionRecord>, userId: string, check: PermissionCheck,
                        patch: PermissionPatch, defaults: ColumnDefaults)
    requires UniqueKeys(rows) && IsAllowedTable(check.tableName)
    requires patch.scope == Some(ALL)
    requires match check.action
             case Create => patch.canCreate == Some(true)
             case Read => patch.canRead == Some(true)
             case Update => patch.canUpdate == Some(true)
             case Delete => patch.canDelete == Some(true)
    ensures CanPerformOn(UpsertRows(rows, userId, check.tableName, patch, defaults), userId, check) == Ok(true)
  {
    var after := UpsertRows(rows, userId, check.tableName, patch, defaults);
    UpsertKeepsUnique(rows, userId, check.tableName, patch, defaults);
    UpsertCarriesPatch(rows, userId, check.tableName, patch, defaults);
    CanPerformOnStore(after, userId, check);
    var row := after[KeyIndex(after, userId, check.tableName).value];
    assert HasKey(after, userId, check.tableName);
    assert row.scope == ALL && ActionFlag(PermissionOf(row), check.action);
  }

  /** After a revoke the table is denied to that user for every check. */
  lemma RevokeDisables(rows: seq<PermissionRecord>, userId: string, check: PermissionCheck)
    requires UniqueKeys(rows) && HasKey(rows, userId, check.tableName) && IsAllowedTable(check.tableName)
    ensures CanPerformOn(DeleteRows(rows, userId, check.tableName), userId, check) == Ok(false)
  {
    DeleteRemovesOnlyKey(rows, userId, check.tableName);
    CanPerformOnStore(DeleteRows(rows, userId, check.tableName), userId, check);
  }

  /** A grant or revoke for one user leaves every other user's rows, and so
      their decisions, as they were. */
  lemma OtherUsersUnaffected(rows: seq<PermissionRecord>, userId: string, tableName: string,
                             patch: PermissionPatch, defaults: ColumnDefaults, other: string)
    requires other != userId
    ensures FindManyByUserId(UpsertRows(rows, userId, tableName, patch, defaults), other)
            == FindManyByUserId(rows, other)
    ensures HasKey(rows, userId, tableName) ==>
      FindManyByUserId(DeleteRows(rows, userId, tableName), other) == FindManyByUserId(rows, other)
  {
    match KeyIndex(rows, userId, tableName)
    case Some(i) =>
      FindManyPointUpdate(rows, i, PatchedRow(rows[i], patch), other);
      FindManyRemoveAt(rows, i, other);
    case None =>
      FindManyAppend(rows, CreatedRow(userId, tableName, patch, defaults), other);
  }

  lemma {:induction false} FindManyRemoveAt(rows: seq<PermissionRecord>, i: nat, other: string)
    requires i < |rows| && rows[i].userId != other
    ensures FindManyByUserId(rows[..i] + rows[i + 1..], other) == FindManyByUserId(rows, other)
  {
    if i == 0 {
      assert rows[..i] + rows[i + 1..] == rows[1..];
    } else {
      assert (rows[..i] + rows[i + 1..])[0] == rows[0];
      assert (rows[..i] + rows[i + 1..])[1..] == rows[1..][..i - 1] + rows[1..][i..];
      FindManyRemoveAt(rows[1..], i - 1, other);
    }
  }

  lemma {:induction false} FindManyPointUpdate(rows: seq<PermissionRecord>, i: nat, x: PermissionRecord, other: string)
    requires i < |rows| && rows[i].userId != other && x.userId != other
    ensures FindManyByUserId(rows[i := x], other) == FindManyByUserId(rows, other)
  {
    if i > 0 {
      assert rows[i := x][1..] == rows[1..][i - 1 := x];
      FindManyPointUpdate(rows[1..], i - 1, x, other);
    } else {
      assert rows[i := x][1..] == rows[1..];
    }
  }

  lemma {:induction false} FindManyAppend(rows: seq<PermissionRecord>, x: PermissionRecord, other: string)
    requires x.userId != other
    ensures FindManyByUserId(rows + [x], other) == FindManyByUserId(rows, other)
  {
    if rows == [] {
      assert FindManyByUserId([x], other) == FindManyByUserId([x][1..], other);
    } else {
      assert (rows + [x])[1..] == rows[1..] + [x];
      FindManyAppend(rows[1..], x, other);
    }
  }

  /** The service over one repository. */
  class PermissionsService {
    const repo: PermissionsRepository

    constructor (repo: PermissionsRepository)
      ensures this.repo == repo
    {
      this.repo := repo;
    }

    /** `getUserPermissions`: the loop over the user's records. */
    method GetUserPermissions(userId: string) returns (m: UserPermissions)
      ensures m == PermissionMap(FindManyByUserId(repo.rows, userId))
    {
      var records := FindManyByUserId(repo.rows, userId);
      m := map[];
      var i := 0;
      while i < |records|
        invariant 0 <= i <= |records|
        invariant m == PermissionMap(records[..i])
      {
        var r := records[i];
        assert records[..i + 1][..i] == records[..i];
        m := m[r.tableName := PermissionOf(r)];
        i := i + 1;
      }
      assert records[..i] == records;
    }

    /** `canPerform`: validate the table, load the map, decide. */
    method CanPerform(userId: string, check: PermissionCheck) returns (r: Result<bool>)
      ensures r == CanPerformOn(repo.rows, userId, check)
    {
      var invalid := ValidateTableName(check.tableName);
      if invalid.Some? {
        return Err(invalid.value);
      }
      var perms := GetUserPermissions(userId);
      r := Ok(Decide(perms, check));
    }

    /** `canAccessRecord`: validate the table, load the map, decide for one record. */
    method CanAccessRecord(userId: string, tableName: string, action: CrudAction, recordOwnerId: string)
      returns (r: Result<bool>)
      ensures r == CanAccessRecordOn(repo.rows, userId, tableName, action, recordOwnerId)
    {
      var invalid := ValidateTableName(tableName);
      if invalid.Some? {
        return Err(invalid.value);
      }
      var perms := GetUserPermissions(userId);
      r := Ok(DecideRecord(perms, userId, tableName, action, recordOwnerId));
    }

    /** `grantPermission`: an invalid table changes nothing; a valid one is one upsert. */
    method GrantPermission(userId: string, tableName: string, data: PermissionPatch) returns (r: Option<HttpError>)
      requires repo.Valid()
      modifies repo
      ensures repo.Valid()
      ensures r == ValidateTableName(tableName)
      ensures r.Some? ==> repo.rows == old(repo.rows)
      ensures r.None? ==> repo.rows == UpsertRows(old(repo.rows), userId, tableName, data, repo.defaults)
    {
      r := ValidateTableName(tableName);
      if r.None? {
        repo.Upsert(userId, tableName, data);
      }
    }

    /** `revokeTablePermissions`: an invalid table changes nothing; a valid one is
        one delete of the keyed row, which must exist. */
    method RevokeTablePermissions(userId: string, tableName: string) returns (r: Option<HttpError>)
      requires repo.Valid()
      requires IsAllowedTable(tableName) ==> HasKey(repo.rows, userId, tableName)
      modifies repo
      ensures repo.Valid()
      ensures r == ValidateTableName(tableName)
      ensures r.Some? ==> repo.rows == old(repo.rows)
      ensures r.None? ==> repo.rows == DeleteRows(old(repo.rows), userId, tableName)
    {
      r := ValidateTableName(tableName);
      if r.None? {
        repo.DeleteByUserIdTableName(userId, tableName);
      }
    }
  }
}
