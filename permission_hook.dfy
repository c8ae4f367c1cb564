/** The frontend's `usePermission(tableName)`: one table's entry of the
    permissions map the client holds, with every missing or falsy part
    defaulted to "not allowed". */
module PermissionHook {
  import opened Common
  import opened PermissionsRepository
  import opened PermissionsService

  /** A table's entry as the client receives it: any field may be missing. */
  datatype ClientPermission = ClientPermission(
    canCreate: Option<bool>, canRead: Option<bool>, canUpdate: Option<bool>, canDelete: Option<bool>,
    scope: Option<string>)

  type ClientPermissions = map<string, ClientPermission>

  /** What the hook returns. */
  datatype EffectivePermission = EffectivePermission(
    canRead: bool, canCreate: bool, canUpdate: bool, canDelete: bool, scope: string)

  const NoPermission := EffectivePermission(false, false, false, false, "NONE")

  /** `flag || false`: only a present `true` is truthy. */
  function FlagOrFalse(b: Option<bool>): bool {
    b == Some(true)
  }

  /** `scope || "NONE"`: a missing or empty scope is falsy. */
  function ScopeOrNone(s: Option<string>): (r: string)
    ensures r != ""
  {
    if s.None? || s.value == "" then "NONE" else s.value
  }

  function UsePermission(permissions: ClientPermissions, tableName: string): (r: EffectivePermission)
    ensures r.scope != ""
  {
    if tableName !in permissions then NoPermission
    else
      var p := permissions[tableName];
      EffectivePermission(FlagOrFalse(p.canRead), FlagOrFalse(p.canCreate), FlagOrFalse(p.canUpdate),
                          FlagOrFalse(p.canDelete), ScopeOrNone(p.scope))
  }

  /** A render's outcome: the value computed, or the TypeError thrown. */
  datatype Rendered<+T> = Rendered(value: T) | Threw(reason: string)

  /** `useAuthContext().permissions` as written: the value `AuthProvider`
      puts in the context has no `permissions` field, so the destructuring
      yields `undefined`. */
  const ProvidedPermissionsAsWritten: Option<ClientPermissions> := None

  /** `usePermission(tableName)` over whatever the context holds:
      `permissions[tableName]` throws when `permissions` is `undefined`. */
  function UsePermissionOf(provided: Option<ClientPermissions>, tableName: string): (r: Rendered<EffectivePermission>)
    ensures r.Threw? <==> provided.None?
    ensures provided.Some? ==> r == Rendered(UsePermission(provided.value, tableName))
  {
    if provided.None? then Threw("TypeError: Cannot read properties of undefined")
    else Rendered(UsePermission(provided.value, tableName))
  }

  /** As written every call throws, whatever the table, while a context that
      carries the map (the corrected provider) yields that map's entry. */
  lemma UsePermissionAsWrittenThrows(tableName: string, permissions: ClientPermissions)
    ensures UsePermissionOf(ProvidedPermissionsAsWritten, tableName).Threw?
    ensures UsePermissionOf(Some(permissions), tableName) == Rendered(UsePermission(permissions, tableName))
  {
  }

  /** A table with no entry gets every flag false and scope "NONE"; a present
      entry's flags hold exactly when they are a present `true`, and its
      scope is kept unless missing or empty. */
  lemma UsePermissionDefaults(permissions: ClientPermissions, tableName: string)
    ensures tableName !in permissions ==> UsePermission(permissions, tableName) == NoPermission
    ensures tableName in permissions ==>
      var p := permissions[tableName];
      var r := UsePermission(permissions, tableName);
      && (r.canRead <==> p.canRead == Some(true))
      && (r.canCreate <==> p.canCreate == Some(true))
      && (r.canUpdate <==> p.canUpdate == Some(true))
      && (r.canDelete <==> p.canDelete == Some(true))
      && (p.scope.Some? && p.scope.value != "" ==> r.scope == p.scope.value)
      && (p.scope.None? || p.scope == Some("") ==> r.scope == "NONE")
  {
  }

  /** Only the named table's entry is consulted. */
  lemma UsePermissionReadsOneEntry(a: ClientPermissions, b: ClientPermissions, tableName: string)
    requires tableName in a <==> tableName in b
    requires tableName in a ==> a[tableName] == b[tableName]
    ensures UsePermission(a, tableName) == UsePermission(b, tableName)
  {
  }

  /** How the backend's `getUserPermissions` result reaches the client. */
  function ScopeName(s: Scope): string {
    match s
    case NONE => "NONE"
    case OWN => "OWN"
    case ALL => "ALL"
  }

  function ClientOf(p: TablePermission): ClientPermission {
    ClientPermission(Some(p.canCreate), Some(p.canRead), Some(p.canUpdate), Some(p.canDelete), Some(ScopeName(p.scope)))
  }

  function ClientMap(perms: UserPermissions): (r: ClientPermissions)
    ensures r.Keys == perms.Keys
  {
    map t | t in perms :: ClientOf(perms[t])
  }

  function EffectiveFlag(r: EffectivePermission, action: CrudAction): bool {
    match action
    case Create => r.canCreate
    case Read => r.canRead
    case Update => r.canUpdate
    case Delete => r.canDelete
  }

  /** Over a map the backend produced, each flag the hook reports is exactly
      the backend's `canPerform` decision with no scope required, and the
      scope is the stored one's name ("NONE" when the table has no entry). */
  lemma UsePermissionAgreesWithBackend(perms: UserPermissions, tableName: string, action: CrudAction)
    ensures EffectiveFlag(UsePermission(ClientMap(perms), tableName), action)
            == Decide(perms, PermissionCheck(tableName, action, None))
    ensures UsePermission(ClientMap(perms), tableName).scope
            == if tableName in perms then ScopeName(perms[tableName].scope) else "NONE"
  {
    if tableName in perms {
      assert ClientMap(perms)[tableName] == ClientOf(perms[tableName]);
    }
  }
}
