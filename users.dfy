/** `UsersService` and `UsersController`. The users repository this service
    calls is not part of this model; its lookups are read here as searches
    of the user table, and its writes as the request the controller hands
    on (`UsersRequest`). */
module Users {
  import opened Common
  import opened PermissionsRepository
  import opened PermissionsService
  import opened UserAuthRepository
  import opened Guards
  import opened Schemas

  // ---------------------------------------------------------------------
  // UsersService
  // ---------------------------------------------------------------------

  /** The user with a username, if any. */
  function FindByUsername(users: seq<User>, username: string): (r: Option<User>)
    ensures r.Some? ==> r.value in users && r.value.username == Some(username)
    ensures r.None? <==> forall u :: u in users ==> u.username != Some(username)
  {
    if users == [] then None
    else if users[0].username == Some(username) then Some(users[0])
    else FindByUsername(users[1..], username)
  }

  /** The shared shape of `getProfile`, `gerUserById` and `getUserByUsername`:
      a missing record is NotFound, a present one is returned unchanged. */
  function OrNotFound(found: Option<User>): (r: Result<User>)
    ensures r.Err? <==> found.None?
    ensures r.Err? ==> r.error == NotFound("User not found")
    ensures r.Ok? ==> r.value == found.value
  {
    match found
    case None => Err(NotFound("User not found"))
    case Some(u) => Ok(u)
  }

  /** `getProfile(userId)` and `gerUserById(userId)`, which share a body. */
  function GetUserById(users: seq<User>, userId: string): (r: Result<User>)
    ensures r.Err? <==> forall u :: u in users ==> u.id != userId
    ensures r.Err? ==> r.error == NotFound("User not found")
    ensures r.Ok? ==> r.value in users && r.value.id == userId
  {
    OrNotFound(FindById(users, userId))
  }

  /** `getUserByUsername`. */
  function GetUserByUsername(users: seq<User>, username: string): (r: Result<User>)
    ensures r.Err? <==> forall u :: u in users ==> u.username != Some(username)
    ensures r.Err? ==> r.error == NotFound("User not found")
    ensures r.Ok? ==> r.value in users && r.value.username == Some(username)
  {
    OrNotFound(FindByUsername(users, username))
  }

  /** The null check of `getAllUsers` and `getUserByTenantId`: only a missing
      list is NotFound; an empty one is returned as it is. */
  function ListOrNotFound(found: Option<seq<User>>): (r: Result<seq<User>>)
    ensures r.Err? <==> found.None?
    ensures r.Err? ==> r.error == NotFound("Users not found")
    ensures r.Ok? ==> r.value == found.value
  {
    match found
    case None => Err(NotFound("Users not found"))
    case Some(list) => Ok(list)
  }

  /** `getAllUsers` over a table whose `findMany` always yields a list. */
  function GetAllUsers(users: seq<User>): (r: Result<seq<User>>)
    ensures r.Ok? && forall u :: u in r.value <==> u in users
  {
    ListOrNotFound(Some(users))
  }

  /** `getUserByTenantId` for a given tenant id. */
  function GetUserByTenantId(users: seq<User>, tenantId: string): (r: Result<seq<User>>)
    ensures r.Ok? && forall u :: u in r.value <==> u in users && u.tenantId == tenantId
  {
    ListOrNotFound(Some(FindAllByTenantId(users, tenantId)))
  }

  /** An empty table, or a tenant without users, is an empty answer and not an error. */
  lemma EmptyListIsNotMissing(users: seq<User>, tenantId: string)
    requires forall u :: u in users ==> u.tenantId != tenantId
    ensures GetUserByTenantId(users, tenantId) == Ok([])
    ensures GetAllUsers([]) == Ok([])
  {
  }

  /** The request `updateProfile` hands to the repository: its key is
      forwarded unchanged, whatever it names. */
  datatype UsersRequest =
    | UpdateProfileRequest(key: Option<string>, data: Json)
    | SoftDeleteRequest(username: string, actorId: string)
    | AllUsersAdminRequest

  function UpdateProfile(key: Option<string>, data: Json): (r: UsersRequest)
    ensures r.UpdateProfileRequest? && r.key == key && r.data == data
  {
    UpdateProfileRequest(key, data)
  }

  // ---------------------------------------------------------------------
  // UsersController
  // ---------------------------------------------------------------------

  /** What a users handler answers once the guards have let it run. */
  datatype UsersReply =
    | OneUser(user: User)
    | UserList(list: seq<User>)
    | Forwarded(request: UsersRequest)

  function ReadAll(): PermissionCheck { PermissionCheck("users", Read, Some(RequireAll)) }
  function UpdateAll(): PermissionCheck { PermissionCheck("users", Update, Some(RequireAll)) }
  function DeleteAll(): PermissionCheck { PermissionCheck("users", Delete, Some(RequireAll)) }

  /** `GET /users/me`. */
  function GetMe(users: seq<User>, user: AuthUser): (r: Result<UsersReply>)
    ensures r.Ok? ==> r.value.OneUser? && r.value.user in users && r.value.user.id == user.id
    ensures r.Err? <==> forall u :: u in users ==> u.id != user.id
  {
    match GetUserById(users, user.id)
    case Err(e) => Err(e)
    case Ok(u) => Ok(OneUser(u))
  }

  /** `PATCH /users/me`: the body through the update-profile pipe, then an
      update keyed by the caller's username. */
  function UpdateMe(user: AuthUser, body: Json, isEmail: string -> bool): (r: Result<UsersReply>)
    ensures r.Err? <==> Parse(UpdateUserProfileSchema, body, isEmail).None?
    ensures r.Err? ==> r.error == BadRequest("Validation error")
    ensures r.Ok? ==> r.value == Forwarded(UpdateProfileRequest(user.username, Parse(UpdateUserProfileSchema, body, isEmail).value))
  {
    match Transform(UpdateUserProfileSchema, body, isEmail)
    case Err(e) => Err(e)
    case Ok(data) => Ok(Forwarded(UpdateProfile(user.username, data)))
  }

  /** `GET /users/all`: everyone for a caller who may read users with scope
      ALL, otherwise a one-element list holding the caller. */
  function GetAllUsersHandler(rows: seq<PermissionRecord>, users: seq<User>, user: AuthUser): (r: Result<UsersReply>)
  {
    match CanPerformOn(rows, user.id, ReadAll())
    case Err(e) => Err(e)
    case Ok(canReadAll) =>
      if canReadAll then
        match GetAllUsers(users)
        case Err(e) => Err(e)
        case Ok(list) => Ok(UserList(list))
      else
        match GetUserById(users, user.id)
        case Err(e) => Err(e)
        case Ok(u) => Ok(UserList([u]))
  }

  /** The two branches of `GET /users/all`, tied to the stored grants. */
  lemma GetAllUsersBranches(rows: seq<PermissionRecord>, users: seq<User>, user: AuthUser)
    ensures var r := GetAllUsersHandler(rows, users, user);
      var p := PermissionMap(FindManyByUserId(rows, user.id));
      && (Decide(p, ReadAll()) ==> r == Ok(UserList(users)))
      && (!Decide(p, ReadAll()) ==>
            (r.Ok? <==> exists u :: u in users && u.id == user.id)
            && (r.Ok? ==> r.value.UserList? && |r.value.list| == 1
                          && r.value.list[0] in users && r.value.list[0].id == user.id))
  {
    assert ValidateTableName("users").None?;
  }

  /** `GET /users/username/:username`. */
  function GetByUsernameHandler(users: seq<User>, username: string): (r: Result<UsersReply>)
    ensures r.Err? <==> forall u :: u in users ==> u.username != Some(username)
    ensures r.Err? ==> r.error == NotFound("User not found")
    ensures r.Ok? ==> r.value.OneUser? && r.value.user in users && r.value.user.username == Some(username)
  {
    match GetUserByUsername(users, username)
    case Err(e) => Err(e)
    case Ok(u) => Ok(OneUser(u))
  }

  /** `@Param(name)`: the value of a route parameter, undefined when the
      route has no segment of that name. */
  function RouteParam(params: map<string, string>, name: string): (r: Option<string>)
    ensures r.Some? <==> name in params
  {
    if name in params then Some(params[name]) else None
  }

  /** The tenant id `GET /users/tenant/:tenantId` passes on, as written: it
      binds the parameter `tenant`, which that route does not have. */
  function TenantArgumentAsWritten(params: map<string, string>): (r: Option<string>)
    ensures r.Some? <==> "tenant" in params
  {
    RouteParam(params, "tenant")
  }

  /** The tenant id bound by the segment's own name, as evidently intended. */
  function TenantArgumentFixed(params: map<string, string>): (r: Option<string>)
    ensures r.Some? <==> "tenantId" in params
  {
    RouteParam(params, "tenantId")
  }

  /** The parameters the route `tenant/:tenantId` produces. */
  predicate TenantRouteParams(params: map<string, string>) {
    params.Keys == {"tenantId"}
  }

  /** As written the service never receives the tenant id of the path;
      corrected, it receives exactly that id and answers that tenant's users. */
  lemma TenantParameterBinding(params: map<string, string>, users: seq<User>)
    requires TenantRouteParams(params)
    ensures TenantArgumentAsWritten(params) == None
    ensures TenantArgumentFixed(params) == Some(params["tenantId"])
    ensures forall u :: u in GetUserByTenantId(users, TenantArgumentFixed(params).value).value
                        <==> u in users && u.tenantId == params["tenantId"]
  {
    assert "tenant" !in params.Keys;
    assert "tenantId" in params.Keys;
  }

  /** `GET /users/tenant/:tenantId` with the parameter corrected. */
  function GetByTenantIdHandler(users: seq<User>, params: map<string, string>): (r: Result<UsersReply>)
    requires TenantRouteParams(params)
    ensures r.Ok? && r.value.UserList?
    ensures forall u :: u in r.value.list <==> u in users && u.tenantId == params["tenantId"]
  {
    assert "tenantId" in params.Keys;
    match GetUserByTenantId(users, TenantArgumentFixed(params).value)
    case Err(e) => Err(e)
    case Ok(list) => Ok(UserList(list))
  }

  /** `PATCH /users/:username`: anyone may be updated by a caller with update
      ALL; otherwise only the caller's own username. */
  function UpdateByUsername(rows: seq<PermissionRecord>, user: AuthUser, username: string,
                            body: Json, isEmail: string -> bool): (r: Result<UsersReply>)
  {
    match Transform(UpdateUserProfileSchema, body, isEmail)
    case Err(e) => Err(e)
    case Ok(data) =>
      match CanPerformOn(rows, user.id, UpdateAll())
      case Err(e) => Err(e)
      case Ok(canUpdateAll) =>
        if canUpdateAll then Ok(Forwarded(UpdateProfile(Some(username), data)))
        else if user.username == Some(username) then Ok(Forwarded(UpdateProfile(Some(username), data)))
        else Err(Forbidden("No tiene permisos para actualizar el usuario"))
  }

  /** For a valid body, the update goes through exactly when the caller may
      update all users or names itself, and then it targets the given
      username; any other target is Forbidden with no update requested. */
  lemma UpdateByUsernameRule(rows: seq<PermissionRecord>, user: AuthUser, username: string,
                             body: Json, isEmail: string -> bool)
    requires Parse(UpdateUserProfileSchema, body, isEmail).Some?
    ensures var r := UpdateByUsername(rows, user, username, body, isEmail);
      var p := PermissionMap(FindManyByUserId(rows, user.id));
      && (r.Ok? <==> Decide(p, UpdateAll()) || user.username == Some(username))
      && (r.Ok? ==> r.value == Forwarded(UpdateProfileRequest(Some(username), Parse(UpdateUserProfileSchema, body, isEmail).value)))
      && (r.Err? ==> r.error == Forbidden("No tiene permisos para actualizar el usuario"))
  {
    assert ValidateTableName("users").None?;
  }

  /** A body the pipe rejects never reaches the permission check. */
  lemma UpdateByUsernameValidatesFirst(rows: seq<PermissionRecord>, user: AuthUser, username: string,
                                       body: Json, isEmail: string -> bool)
    requires Parse(UpdateUserProfileSchema, body, isEmail).None?
    ensures UpdateByUsername(rows, user, username, body, isEmail) == Err(BadRequest("Validation error"))
  {
  }

  /** `DELETE /users/:username`: a soft delete requested on behalf of the caller. */
  function DeleteByUsername(user: AuthUser, username: string): (r: Result<UsersReply>)
    ensures r.Ok? && r.value.Forwarded? && r.value.request.SoftDeleteRequest?
    ensures r.value.request.username == username && r.value.request.actorId == user.id
  {
    Ok(Forwarded(SoftDeleteRequest(username, user.id)))
  }

  /** `GET /users/allAdmin`: refused unless the caller may delete users with scope ALL. */
  function GetAllUsersAdmin(rows: seq<PermissionRecord>, user: AuthUser): (r: Result<UsersReply>)
  {
    match CanPerformOn(rows, user.id, DeleteAll())
    case Err(e) => Err(e)
    case Ok(allowed) =>
      if allowed then Ok(Forwarded(AllUsersAdminRequest))
      else Err(Forbidden("No tiene permisos para ver esta información"))
  }

  lemma GetAllUsersAdminRule(rows: seq<PermissionRecord>, user: AuthUser)
    ensures var r := GetAllUsersAdmin(rows, user);
      var p := PermissionMap(FindManyByUserId(rows, user.id));
      && (r.Ok? <==> Decide(p, DeleteAll()))
      && (r.Ok? ==> r.value == Forwarded(AllUsersAdminRequest))
      && (r.Err? ==> r.error == Forbidden("No tiene permisos para ver esta información"))
  {
    assert ValidateTableName("users").None?;
  }

  /** Only a stored ALL scope with the delete flag opens the admin list. */
  lemma AdminListNeedsAllScope(rows: seq<PermissionRecord>, user: AuthUser)
    requires GetAllUsersAdmin(rows, user).Ok?
    ensures var p := PermissionMap(FindManyByUserId(rows, user.id));
      "users" in p && p["users"].canDelete && p["users"].scope == ALL
  {
    GetAllUsersAdminRule(rows, user);
    var p := PermissionMap(FindManyByUserId(rows, user.id));
    ScopeRule(p, "users", Delete);
  }
}
