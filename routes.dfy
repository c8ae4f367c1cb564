/** The route table of the backend: what each handler declares with
    `@Public` and `@RequirePermission`, the metadata the guards then find,
    and the handlers of the auth controller. */
module Routes {
  import opened Common
  import opened PermissionsRepository
  import opened PermissionsService
  import opened UserAuthRepository
  import opened AuthService
  import opened Guards
  import opened Schemas

  /** Every handler of the auth, users, audit-log and permissions controllers. */
  datatype Handler =
    | AuthRegister | AuthLogin | AuthProfile | AuthRefresh | AuthLogout
    | UsersGetMe | UsersUpdateMe | UsersGetAll | UsersByUsername | UsersByTenantId
    | UsersUpdateByUsername | UsersDeleteByUsername | UsersAllAdmin
    | AuditLogByTenant | AuditLogByUser
    | PermissionsMe

  /** The handlers marked `@Public()`. No controller class carries the marker. */
  predicate DeclaredPublic(h: Handler) {
    h == AuthRegister || h == AuthLogin
  }

  function Check(tableName: string, action: CrudAction, scope: Option<ScopeRequirement>): PermissionCheck {
    PermissionCheck(tableName, action, scope)
  }

  /** The argument of each handler's `@RequirePermission`, if it has one. */
  function DeclaredPermission(h: Handler): Option<PermissionCheck> {
    match h
    case AuthRegister => None
    case AuthLogin => None
    case AuthProfile => None
    case AuthRefresh => None
    case AuthLogout => None
    case UsersGetMe => Some(Check("users", Read, Some(RequireOwn)))
    case UsersUpdateMe => Some(Check("users", Update, Some(RequireOwn)))
    case UsersGetAll => Some(Check("users", Read, None))
    case UsersByUsername => Some(Check("users", Read, Some(RequireAll)))
    case UsersByTenantId => Some(Check("users", Read, Some(RequireAll)))
    case UsersUpdateByUsername => Some(Check("users", Update, None))
    case UsersDeleteByUsername => Some(Check("users", Delete, Some(RequireAll)))
    case UsersAllAdmin => Some(Check("users", Delete, Some(RequireAll)))
    case AuditLogByTenant => Some(Check("audit_logs", Read, Some(RequireAll)))
    case AuditLogByUser => Some(Check("audit_logs", Read, Some(RequireAll)))
    case PermissionsMe => Some(Check("users", Read, Some(RequireOwn)))
  }

  /** Every declared requirement names an allowed table, so `canPerform`
      never throws for a declared check. */
  lemma DeclaredTablesAllowed(h: Handler)
    requires DeclaredPermission(h).Some?
    ensures ValidateTableName(DeclaredPermission(h).value.tableName).None?
  {
  }

  /** The metadata a handler has before any `@RequirePermission` is applied. */
  function BaseMeta(h: Handler): RouteMeta {
    RouteMeta(DeclaredPublic(h), false, None, None)
  }

  /** The controllers these handlers belong to. */
  datatype Controller = AuthCtl | UsersCtl | AuditLogCtl | PermissionsCtl

  function ControllerOf(h: Handler): Controller {
    match h
    case AuthRegister | AuthLogin | AuthProfile | AuthRefresh | AuthLogout => AuthCtl
    case UsersGetMe | UsersUpdateMe | UsersGetAll | UsersByUsername | UsersByTenantId
       | UsersUpdateByUsername | UsersDeleteByUsername | UsersAllAdmin => UsersCtl
    case AuditLogByTenant | AuditLogByUser => AuditLogCtl
    case PermissionsMe => PermissionsCtl
  }

  /** Each controller class's handlers, in source order. */
  function HandlersOf(c: Controller): seq<Handler> {
    match c
    case AuthCtl => [AuthRegister, AuthLogin, AuthProfile, AuthRefresh, AuthLogout]
    case UsersCtl => [UsersGetMe, UsersUpdateMe, UsersGetAll, UsersByUsername, UsersByTenantId,
                      UsersUpdateByUsername, UsersDeleteByUsername, UsersAllAdmin]
    case AuditLogCtl => [AuditLogByTenant, AuditLogByUser]
    case PermissionsCtl => [PermissionsMe]
  }

  /** The two tables agree: a handler is listed in exactly its own controller. */
  lemma HandlersOfController(h: Handler, c: Controller)
    ensures h in HandlersOf(c) <==> ControllerOf(h) == c
  {
  }

  /** The outcome of defining a class while its module loads: the value, or
      the exception that aborts the load. */
  datatype Loaded<+T> = Loaded(value: T) | LoadFailed(reason: string)

  /** Applying `RequirePermission(p)` as written. The arrow function's body is
      a block that calls `SetMetadata` and returns nothing, so the entry that
      `__decorate` receives is `undefined`; with `reflect-metadata` loaded,
      `__decorate` hands the list to `Reflect.decorate`, which calls every
      entry and so throws a TypeError while the class is being defined. */
  function RequirePermissionAsWritten(meta: RouteMeta, p: PermissionCheck): (r: Loaded<RouteMeta>)
    ensures r.LoadFailed?
  {
    LoadFailed("TypeError: decorator is not a function")
  }

  /** `RequirePermission(p)` returning `SetMetadata(...)`, as evidently intended. */
  function RequirePermissionFixed(meta: RouteMeta, p: PermissionCheck): (r: RouteMeta)
    ensures RequiredPermission(r) == Some(p)
    ensures IsPublic(r) == IsPublic(meta)
  {
    meta.(permissionOnHandler := Some(p))
  }

  /** One handler's decorators applied as the code is written. */
  function HandlerMetaAsWritten(h: Handler): Loaded<RouteMeta> {
    match DeclaredPermission(h)
    case None => Loaded(BaseMeta(h))
    case Some(p) => RequirePermissionAsWritten(BaseMeta(h), p)
  }

  /** A controller class is defined only if every one of its handlers'
      decorators applies; one throw aborts the whole module. */
  predicate ControllerLoadsAsWritten(c: Controller) {
    forall k :: 0 <= k < |HandlersOf(c)| ==> HandlerMetaAsWritten(HandlersOf(c)[k]).Loaded?
  }

  /** The metadata of a handler as the code is written: none at all when its
      controller fails to load. */
  function MetaAsWritten(h: Handler): Loaded<RouteMeta> {
    if ControllerLoadsAsWritten(ControllerOf(h)) then HandlerMetaAsWritten(h)
    else LoadFailed("TypeError: decorator is not a function")
  }

  /** The metadata of a handler with the decorator corrected. */
  function MetaFixed(h: Handler): RouteMeta {
    match DeclaredPermission(h)
    case None => BaseMeta(h)
    case Some(p) => RequirePermissionFixed(BaseMeta(h), p)
  }

  /** The controllers `app.module.ts` imports; `main.ts` imports that module
      before `bootstrap` runs, so the backend starts only if all of them load. */
  const AppControllers: seq<Controller> := [UsersCtl, AuthCtl, PermissionsCtl, AuditLogCtl]

  predicate BootsAsWritten() {
    forall k :: 0 <= k < |AppControllers| ==> ControllerLoadsAsWritten(AppControllers[k])
  }

  /** A request to `h` as the code is written: served through the two guards
      only if the backend started. */
  function ServeAsWritten(h: Handler, authorization: Option<string>, decode: string -> Option<Token>,
                          secret: string, now: int, users: seq<User>, rows: seq<PermissionRecord>)
    : Loaded<Result<Option<AuthUser>>>
  {
    if !BootsAsWritten() then LoadFailed("TypeError: decorator is not a function")
    else match MetaAsWritten(h)
      case LoadFailed(e) => LoadFailed(e)
      case Loaded(meta) => Loaded(GuardChain(meta, authorization, decode, secret, now, users, rows))
  }

  /** As written, exactly the controllers that use `@RequirePermission` fail
      to load: the auth controller is defined, the users, audit-log and
      permissions controllers are not, and so the backend never starts. */
  lemma AsWrittenControllersFail(c: Controller)
    ensures ControllerLoadsAsWritten(c) <==> c == AuthCtl
    ensures !BootsAsWritten()
  {
    match c {
      case AuthCtl => AuthControllerLoads();
      case UsersCtl => FirstHandlerFails(UsersCtl);
      case AuditLogCtl => FirstHandlerFails(AuditLogCtl);
      case PermissionsCtl => FirstHandlerFails(PermissionsCtl);
    }
    FirstHandlerFails(UsersCtl);
    assert AppControllers[0] == UsersCtl;
  }

  lemma AuthControllerLoads()
    ensures ControllerLoadsAsWritten(AuthCtl)
  {
    var hs := HandlersOf(AuthCtl);
    forall k | 0 <= k < |hs| ensures HandlerMetaAsWritten(hs[k]).Loaded? {
      assert DeclaredPermission(hs[k]).None?;
    }
  }

  lemma FirstHandlerFails(c: Controller)
    requires c != AuthCtl
    ensures !ControllerLoadsAsWritten(c)
  {
    var h := HandlersOf(c)[0];
    assert DeclaredPermission(h).Some?;
    assert HandlerMetaAsWritten(h).LoadFailed?;
  }

  /** As written no request is ever answered by a handler, the public ones
      included: the backend fails while loading its controllers. */
  lemma AsWrittenServesNoRoute(h: Handler, authorization: Option<string>, decode: string -> Option<Token>,
                               secret: string, now: int, users: seq<User>, rows: seq<PermissionRecord>)
    ensures ServeAsWritten(h, authorization, decode, secret, now, users, rows).LoadFailed?
  {
    AsWrittenControllersFail(AuthCtl);
  }

  /** The store that grants `u` everything on `users`. */
  function GrantAllOnUsers(u: string): seq<PermissionRecord> {
    [PermissionRecord(u, "users", true, true, true, true, ALL)]
  }

  /** The input that shows it: a user granted every action on `users` with
      scope ALL is allowed by `canPerform`, and the corrected permissions
      guard lets `GET /users/me` through; as written that request is never
      served, because the users controller does not load. */
  lemma AsWrittenNeverServesGrantedUser(u: AuthUser, authorization: Option<string>, decode: string -> Option<Token>,
                                        secret: string, now: int, users: seq<User>)
    requires u.id != ""
    ensures CanPerformOn(GrantAllOnUsers(u.id), u.id, DeclaredPermission(UsersGetMe).value) == Ok(true)
    ensures PermissionsGuard(MetaFixed(UsersGetMe), Some(u), GrantAllOnUsers(u.id)) == Ok(true)
    ensures ServeAsWritten(UsersGetMe, authorization, decode, secret, now, users, GrantAllOnUsers(u.id)).LoadFailed?
  {
    var rows := GrantAllOnUsers(u.id);
    var check := DeclaredPermission(UsersGetMe).value;
    CanPerformOnStore(rows, u.id, check);
    assert FindManyByUserId(rows, u.id) == rows;
    PermissionMapOfStore(rows, u.id, "users");
    FixedDecidesByDeclaredCheck(UsersGetMe, u, rows);
    AsWrittenServesNoRoute(UsersGetMe, authorization, decode, secret, now, users, rows);
  }

  /** With the decorator corrected, a route with a declared requirement is
      decided by exactly that check for an authenticated user. */
  lemma FixedDecidesByDeclaredCheck(h: Handler, user: AuthUser, rows: seq<PermissionRecord>)
    requires DeclaredPermission(h).Some? && user.id != ""
    ensures !DeclaredPublic(h)
    ensures PermissionsGuard(MetaFixed(h), Some(user), rows) == Ok(true)
            <==> CanPerformOn(rows, user.id, DeclaredPermission(h).value) == Ok(true)
  {
    PermissionsGuardBranches(MetaFixed(h), Some(user), rows);
  }

  /** The protected auth routes declare no requirement, so even with the
      decorator corrected they fall into deny-by-default. */
  lemma FixedStillDeniesAuthRoutes(h: Handler, user: Option<AuthUser>, rows: seq<PermissionRecord>)
    requires h == AuthProfile || h == AuthRefresh || h == AuthLogout
    ensures !IsPublic(MetaFixed(h))
    ensures PermissionsGuard(MetaFixed(h), user, rows) == Err(Forbidden("Route requires permissions"))
  {
    PermissionsGuardBranches(MetaFixed(h), user, rows);
  }

  /** Register and login are public: the auth controller declares no
      requirement, so its metadata is the same under either reading of the
      decorator, and both guards let any request through with no user. */
  lemma PublicAuthRoutes(h: Handler, authorization: Option<string>, decode: string -> Option<Token>,
                         secret: string, now: int, users: seq<User>, rows: seq<PermissionRecord>)
    requires h == AuthRegister || h == AuthLogin
    ensures MetaAsWritten(h) == Loaded(MetaFixed(h))
    ensures GuardChain(MetaFixed(h), authorization, decode, secret, now, users, rows) == Ok(None)
  {
    AsWrittenControllersFail(AuthCtl);
    GuardChainPublic(MetaFixed(h), authorization, decode, secret, now, users, rows);
  }

  // ---------------------------------------------------------------------
  // AuthController
  // ---------------------------------------------------------------------

  /** The register body as JSON, as the schema would see it. */
  function RegisterBody(dto: RegisterDto): Json {
    var fields := map[
      "email" := JStr(dto.email), "password" := JStr(dto.password),
      "firstName" := JStr(dto.firstName), "lastName" := JStr(dto.lastName),
      "tenantId" := JStr(dto.tenantId)];
    JObj(if dto.roleId.Some? then fields["roleId" := JStr(dto.roleId.value)] else fields)
  }

  /** `AuthController.register`: the body goes to the service without
      `ZodValidationPipe`, so the register schema plays no part. */
  function Register(users: seq<User>, tenants: seq<Tenant>, dto: RegisterDto,
                    hash: string -> string, newId: string, now: int, secret: string): (r: Result<AuthResponse>)
    ensures r.Ok? ==> FindByEmail(users, dto.email).None? && FindTenantById(tenants, dto.tenantId).Some?
  {
    RegisterOutcome(users, tenants, dto, hash, newId, now, secret)
  }

  /** The input that shows it: a one-character password and a tenant id that
      is not a UUID fail the register schema, yet the handler registers the
      user. */
  lemma RegisterSkipsSchema(hash: string -> string, newId: string, now: int, secret: string, isEmail: string -> bool)
    ensures var dto := RegisterDto("a@b.c", "x", "Ana", "Paz", "t1", Some("r1"));
      && Transform(RegisterAuthSchema, RegisterBody(dto), isEmail).Err?
      && Register([], [Tenant("t1", "Vivero")], dto, hash, newId, now, secret).Ok?
  {
    var dto := RegisterDto("a@b.c", "x", "Ana", "Paz", "t1", Some("r1"));
    RegisterSchemaAccepts(RegisterBody(dto).fields, isEmail);
    assert RegisterBody(dto).fields["password"] == JStr("x");
    assert FindTenantById([Tenant("t1", "Vivero")], "t1") == Some(Tenant("t1", "Vivero"));
  }

  /** `AuthController.login`: also unvalidated; straight to the service. */
  function LoginHandler(users: seq<User>, tenants: seq<Tenant>, dto: LoginDto,
                        compare: (string, string) -> bool, secret: string, now: int): (r: Result<AuthResponse>)
    ensures r.Err? ==> r.error.Unauthorized?
  {
    Login(users, tenants, dto, compare, secret, now)
  }

  /** The login schema refuses an empty password, but the handler passes it
      on and the outcome is then up to `compare`. */
  lemma LoginSkipsSchema(users: seq<User>, tenants: seq<Tenant>, email: string,
                         compare: (string, string) -> bool, secret: string, now: int, isEmail: string -> bool)
    ensures Transform(LoginAuthSchema, JObj(map["email" := JStr(email), "password" := JStr("")]), isEmail).Err?
    ensures LoginHandler(users, tenants, LoginDto(email, ""), compare, secret, now)
            == Login(users, tenants, LoginDto(email, ""), compare, secret, now)
  {
    LoginSchemaAccepts(map["email" := JStr(email), "password" := JStr("")], isEmail);
  }

  /** `AuthController.getProfile`: the profile of the authenticated id. */
  function ProfileHandler(users: seq<User>, user: AuthUser): (r: Result<Profile>)
    ensures r.Ok? ==> r.value.id == user.id
  {
    GetProfile(users, user.id)
  }

  /** `AuthController.refresh`: no refresh token is read; the tokens are
      re-minted for the identity the access token established. */
  function RefreshHandler(users: seq<User>, user: AuthUser, secret: string, now: int): (r: Result<TokenPair>)
    ensures r.Ok? ==> r.value.accessToken.payload.sub == user.id && r.value.refreshToken.payload.sub == user.id
  {
    RefreshTokens(users, user.id, secret, now)
  }

  /** Whatever the request carried, an authenticated identity that is still
      active gets fresh tokens for itself. */
  lemma RefreshForAuthenticatedUser(users: seq<User>, authorization: Option<string>, decode: string -> Option<Token>,
                                    secret: string, now: int, later: int)
    requires UniqueUsers(users)
    requires Authenticate(authorization, decode, secret, now, users).Ok?
    ensures var u := Authenticate(authorization, decode, secret, now, users).value;
      && RefreshHandler(users, u, secret, later).Ok?
      && RefreshHandler(users, u, secret, later).value.refreshToken.lifetime == RefreshTokenLifetime
  {
    var u := Authenticate(authorization, decode, secret, now, users).value;
    AuthenticateOutcome(authorization, decode, secret, now, users);
    var x :| x in users && x.id == u.id && x.isActive;
    FindByIdUnique(users, u.id, x);
  }

  datatype Message = Message(message: string)

  /** `AuthController.logout`: a constant reply; no store is touched. */
  function LogoutHandler(user: AuthUser): (r: Message)
    ensures r.message == "Logged out successfully"
  {
    Message("Logged out successfully")
  }
}
