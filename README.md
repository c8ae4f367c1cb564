# Vivero client: authorization core, modelled in Dafny

This project models the authorization path of the Vivero multi-tenant
back office, together with the pure decision logic of its web client.

**Backend (NestJS).** A request to a protected route passes two global
guards in order:

1. The JWT guard reads a `Bearer` token, verifies it and looks its
   subject up among the users. Only an active stored user gets through.
2. The permissions guard reads the route's `@RequirePermission`
   requirement. It answers with the permissions service, which works
   from the `permissions` rows of that user. Each row carries four CRUD
   flags and a scope (`NONE`, `OWN` or `ALL`) for one table.

Routes marked `@Public()` skip both guards. The model covers:

- the permission rows and their repository (find, upsert, delete);
- the service's map building, `canPerform`, `canAccessRecord`, grant
  and revoke;
- both guards, and the route table of the auth, users, audit-log and
  permissions controllers;
- the auth service (register, login, profile, refresh, token
  generation) over the user/tenant store;
- the zod validation pipe and the shared zod schemas;
- the users service and controller;
- the audit-log service, repository and controller, including the
  query-string parsing of `page` and `limit`;
- the CORS origin list built at bootstrap.

**Frontend (Next.js).** The model covers:

- the `useAuth` hook over `localStorage`;
- the profile query's derived flags and the protected layout's render
  chain;
- `usePermission`;
- the feature cards on the dashboard;
- the users query keys;
- the register form's checks and `handleSubmit`;
- the generic data table's action, export and delete logic;
- the users page's KPI counts and cells.

**Form of the model.** Each source file takes the form of its code:

- Stateful objects become classes with `modifies` clauses: the
  repositories, the services that own a repository, the `useAuth`
  hook, the register form and the data table's dialog.
- A loop in the source becomes a `while` loop with invariants
  (`PermissionsService.GetUserPermissions`).
- Pure code becomes functions and lemmas.

Database rows are sequences of records. External effects are
parameters: bcrypt's hash and compare, the token decoder, the clock,
generated ids, JSON parse and stringify, and the email check.

Where the code departs from the evidently intended behaviour, the
model follows the code:

- **One secret for both tokens.** The access and refresh tokens are
  signed with the same secret, and the strategy accepts a refresh token
  as an access token (`AuthService.GenerateTokens`,
  `Guards.RefreshTokenAuthenticates`).
- **Inactive accounts get their own message.** Login answers "Account
  is deactivated" for an inactive account instead of the generic
  "Invalid credentials" (`AuthService.LoginInactiveFirst`).
- **Refresh reads no refresh token.** `POST /auth/refresh` re-mints
  tokens for whoever the access token identifies (`Routes.RefreshHandler`).
- **`roleId` is required at register.** Registration without a
  `roleId` fails with Conflict, because the default-role lookup always
  throws (`AuthService.RoleIdOrDefault`).
- **No username.** Users are created without a username, so a user
  has none until a later update sets one.
- **Register and login skip their schemas.** Neither handler runs its
  zod schema. Bodies the schema refuses still reach the service
  (`Routes.RegisterSkipsSchema`, `Routes.LoginSkipsSchema`).
- **As written, the backend does not start.** `@RequirePermission(...)`
  evaluates to `undefined`, and applying it throws while the users,
  audit-log and permissions controllers load (`Routes.AsWrittenServesNoRoute`).
  The guards are modelled with the decorator corrected; see Findings.

## Model

| member | source | states |
|---|---|---|
| PermissionsRepository.KeyIndex | apps/backend/src/modules/permissions/repositories/permissions.repository.ts:42-46 | The `(userId, tableName)` unique key is found iff some row has it, and then at the first such row |
| PermissionsRepository.FindManyByUserId | apps/backend/src/modules/permissions/repositories/permissions.repository.ts:14-29 | Exactly the user's rows: each result row has the user's id, and a stored row is returned iff it is the user's |
| PermissionsRepository.FindManyDistinctTables | apps/backend/src/modules/permissions/repositories/permissions.repository.ts:14-29 | Under the unique key, one user's rows name each table at most once |
| PermissionsRepository.UpsertAbsentCreates | apps/backend/src/modules/permissions/repositories/permissions.repository.ts:43-47 | With no row for the key, upsert appends one row holding the key and, for each of the four flags and the scope, the patch's value if given and the column default otherwise; every other row is unchanged |
| PermissionsRepository.UpsertPresentPatches | apps/backend/src/modules/permissions/repositories/permissions.repository.ts:45 | With a row for the key, upsert patches that row in place: given fields overwrite, absent fields keep their value, the length is kept |
| PermissionsRepository.UpsertKeepsUnique | apps/backend/src/modules/permissions/repositories/permissions.repository.ts:31-47 | Upsert preserves the unique `(userId, tableName)` key |
| PermissionsRepository.UpsertHasKey | apps/backend/src/modules/permissions/repositories/permissions.repository.ts:31-47 | After upsert the key is present |
| PermissionsRepository.UpsertIdempotent | apps/backend/src/modules/permissions/repositories/permissions.repository.ts:31-47 | Repeating the same upsert changes nothing |
| PermissionsRepository.UpsertCarriesPatch | apps/backend/src/modules/permissions/repositories/permissions.repository.ts:43-47 | After an upsert the key has a row, and that row holds every field the patch supplied, whether it was created or updated |
| PermissionsRepository.DeleteRemovesOnlyKey | apps/backend/src/modules/permissions/repositories/permissions.repository.ts:49-56 | Delete removes exactly the key's row, keeps every other row, and keeps the unique key |
| PermissionsRepository.PermissionsRepository.constructor | apps/backend/src/modules/permissions/repositories/permissions.repository.ts:11-12 | A repository starts with no rows and satisfies the unique-key invariant |
| PermissionsRepository.PermissionsRepository.Upsert | apps/backend/src/modules/permissions/repositories/permissions.repository.ts:31-47 | The new rows are the upsert of the old rows; the unique-key invariant holds and the key is present |
| PermissionsRepository.PermissionsRepository.DeleteByUserIdTableName | apps/backend/src/modules/permissions/repositories/permissions.repository.ts:49-56 | The new rows are the old ones without the key; the invariant holds and the key is gone |
| PermissionsService.ValidateTableName | apps/backend/src/modules/permissions/permissions.service.ts:13-39 | No error iff the name is one of the five allowed tables; otherwise BadRequest "Invalid table name: " followed by the name |
| PermissionsService.PermissionMapKeys | apps/backend/src/modules/permissions/permissions.service.ts:49-57 | The map has a key for a table iff some record names that table |
| PermissionsService.PermissionMapLastWins | apps/backend/src/modules/permissions/permissions.service.ts:49-57 | A table's entry comes from the last record naming it |
| PermissionsService.Decide | apps/backend/src/modules/permissions/permissions.service.ts:72-88 | Allowed iff the table has an entry, its flag for the action is set, and its scope ranks at least the required one (a missing requirement needs only the flag) |
| PermissionsService.ScopeRule | apps/backend/src/modules/permissions/permissions.service.ts:84-88 | With the flag set: requirement ALL passes iff the scope is ALL, requirement OWN iff the scope is not NONE, and no requirement always |
| PermissionsService.DecideMonotoneInRequirement | apps/backend/src/modules/permissions/permissions.service.ts:84-88 | Whatever passes a stricter requirement passes a weaker one |
| PermissionsService.DecideRecord | apps/backend/src/modules/permissions/permissions.service.ts:94-115 | Record access iff the action's flag is set and the scope is ALL, or OWN with the caller owning the record |
| PermissionsService.DecideRecordImpliesOwn | apps/backend/src/modules/permissions/permissions.service.ts:94-115 | Record access implies the table-level check with requirement OWN |
| PermissionsService.PermissionMapOfStore | apps/backend/src/modules/permissions/permissions.service.ts:44-61 | Over a store with unique keys, a table's entry in the user's map is the user's row for that table, and is absent iff no such row exists |
| PermissionsService.CanPerformOnStore | apps/backend/src/modules/permissions/permissions.service.ts:66-89 | `canPerform` read directly off the store: an error for a non-allowed table, otherwise allowed iff the user's row has the flag and enough scope |
| PermissionsService.CanAccessRecordOnStore | apps/backend/src/modules/permissions/permissions.service.ts:94-115 | `canAccessRecord` read directly off the store, in the same way |
| PermissionsService.NoRowsDenies | apps/backend/src/modules/permissions/permissions.service.ts:72 | A user with no rows is denied every check on an allowed table (deny by default) |
| PermissionsService.GrantAllEnables | apps/backend/src/modules/permissions/permissions.service.ts:120-135 | After granting a flag with scope ALL, every check for that table and action passes |
| PermissionsService.RevokeDisables | apps/backend/src/modules/permissions/permissions.service.ts:140-148 | After revoking a table, every check on it is denied |
| PermissionsService.OtherUsersUnaffected | apps/backend/src/modules/permissions/permissions.service.ts:120-148 | An upsert or a delete for one user leaves every other user's rows, and so their decisions, unchanged |
| PermissionsService.PermissionsService.constructor | apps/backend/src/modules/permissions/permissions.service.ts:27 | The service works on the given repository |
| PermissionsService.PermissionsService.GetUserPermissions | apps/backend/src/modules/permissions/permissions.service.ts:44-61 | The loop builds exactly the permission map of the user's rows |
| PermissionsService.PermissionsService.CanPerform | apps/backend/src/modules/permissions/permissions.service.ts:66-89 | The result is the store-level `canPerform` decision, and nothing is changed |
| PermissionsService.PermissionsService.CanAccessRecord | apps/backend/src/modules/permissions/permissions.service.ts:94-115 | The result is the store-level record decision, and nothing is changed |
| PermissionsService.PermissionsService.GrantPermission | apps/backend/src/modules/permissions/permissions.service.ts:120-135 | An invalid table is refused with the rows unchanged; otherwise the rows become the upsert |
| PermissionsService.PermissionsService.RevokeTablePermissions | apps/backend/src/modules/permissions/permissions.service.ts:140-148 | An invalid table is refused with the rows unchanged; otherwise the key's row is deleted |
| Guards.ExtractBearerToken | apps/backend/src/modules/auth/strategies/jwt-auth.strategy.ts:16 | An extracted token is never empty and holds no whitespace |
| Guards.ExtractBearerOfBearerHeader | apps/backend/src/modules/auth/strategies/jwt-auth.strategy.ts:16 | `Bearer <token>` yields exactly the token |
| Guards.ExtractBearerNeedsBearer | apps/backend/src/modules/auth/strategies/jwt-auth.strategy.ts:16 | A missing header, or a scheme other than bearer (case-insensitively), yields no token |
| Guards.ValidatePayload | apps/backend/src/modules/auth/strategies/jwt-auth.strategy.ts:23-39 | Error iff the subject is missing or inactive, with "User no longer active or exists"; on success the identity is the stored user's |
| Guards.ValidateUserUndefined | apps/backend/src/modules/auth/strategies/jwt-auth.strategy.ts:27-31 | For an active stored user, the strategy as written fails with a server error, while the lookup by id accepts the payload with that user's identity |
| Guards.ValidateIgnoresTenantAndRole | apps/backend/src/modules/auth/strategies/jwt-auth.strategy.ts:27 | Only `sub` matters: the tenant and role claims do not change the outcome |
| Guards.AuthenticateOutcome | apps/backend/src/modules/auth/strategies/jwt-auth.strategy.ts:15-39 | Authentication either fails with Unauthorized or yields an active stored user with the token's subject |
| Guards.LoginTokenAuthenticates | apps/backend/src/modules/auth/strategies/jwt-auth.strategy.ts:17 | A login access token authenticates its user for 900 seconds after issue, and fails from then on (expiry is not ignored) |
| Guards.RefreshTokenAuthenticates | apps/backend/src/modules/auth/strategies/jwt-auth.strategy.ts:15-20 | A refresh token beyond the access lifetime still authenticates as an access token |
| Guards.RequiredPermission | apps/backend/src/modules/permissions/guards/permissions.guard.ts:45-49 | A handler's requirement overrides its class's requirement |
| Guards.GlobalAuthGuard | apps/backend/src/modules/auth/guards/global-auth.guard.ts:27-40 | A public route passes with no user attached; a protected route never does: it is refused with Unauthorized (always without an Authorization header), or it gets the identity of an active stored user whose id is the subject of a Bearer token that decodes and verifies |
| Guards.PermissionsGuardBranches | apps/backend/src/modules/permissions/guards/permissions.guard.ts:30-76 | Four branches: public passes; no requirement gives Forbidden "Route requires permissions"; no user gives Forbidden; otherwise allowed iff `canPerform` allows |
| Guards.PermissionsGuardNeverFalse | apps/backend/src/modules/permissions/guards/permissions.guard.ts:69-75 | The guard never returns false: it allows or it throws |
| Guards.AuthenticationBeforeAuthorization | apps/backend/src/app.module.ts:50-57 | Authentication runs first: a request that fails it gets its Unauthorized, whatever the permissions |
| Guards.GuardChainProtected | apps/backend/src/app.module.ts:50-57 | A protected route with a requirement passes both guards iff authentication succeeds and the user's permissions allow the check |
| Guards.GuardChainPublic | apps/backend/src/app.module.ts:50-57 | A public route passes both guards untouched |
| Routes.DeclaredTablesAllowed | apps/backend/src/modules/users/users.controller.ts:27-121 | Every declared requirement names an allowed table, so no declared check throws BadRequest |
| Routes.RequirePermissionAsWritten | apps/backend/src/modules/permissions/decorators/require-permission.decorator.ts:8-10 | As written, applying the decorator fails while the controller class is defined, whatever the route and the requirement |
| Routes.RequirePermissionFixed | apps/backend/src/modules/permissions/decorators/require-permission.decorator.ts:8-10 | Corrected, the decorator sets the handler's requirement to its argument |
| Routes.HandlersOfController | apps/backend/src/modules/users/users.controller.ts:20-121 | Each handler is listed in exactly the controller class that declares it |
| Routes.AsWrittenControllersFail | apps/backend/src/modules/permissions/decorators/require-permission.decorator.ts:8-10 | As written, a controller loads iff it is the auth controller, the only one without `@RequirePermission`; so the backend never starts |
| Routes.AsWrittenServesNoRoute | apps/backend/src/app.module.ts:12-20 | As written, no request to any handler, public ones included, is ever served |
| Routes.AsWrittenNeverServesGrantedUser | apps/backend/src/modules/permissions/decorators/require-permission.decorator.ts:8-10 | The counterexample: a user granted everything on `users` is allowed by `canPerform` and by the corrected guard on `GET /users/me`, yet as written that request is never served |
| Routes.FixedDecidesByDeclaredCheck | apps/backend/src/modules/permissions/guards/permissions.guard.ts:63-75 | Corrected, a route with a declared requirement admits an authenticated user iff `canPerform` allows it |
| Routes.FixedStillDeniesAuthRoutes | apps/backend/src/modules/auth/auth.controller.ts:52-78 | Profile, refresh and logout declare no requirement, so they are refused even with the corrected decorator |
| Routes.PublicAuthRoutes | apps/backend/src/modules/auth/auth.controller.ts:28-46 | Register and login have the same metadata under either reading of the decorator, and pass both guards with no user |
| Routes.Register | apps/backend/src/modules/auth/auth.controller.ts:28-34 | A successful registration means the email was free and the tenant exists |
| Routes.RegisterSkipsSchema | apps/backend/src/modules/auth/auth.controller.ts:31 | A body the register schema refuses is still registered |
| Routes.LoginHandler | apps/backend/src/modules/auth/auth.controller.ts:40-46 | Every login failure is Unauthorized |
| Routes.LoginSkipsSchema | apps/backend/src/modules/auth/auth.controller.ts:43 | An empty password, refused by the login schema, still reaches the service |
| Routes.ProfileHandler | apps/backend/src/modules/auth/auth.controller.ts:52-56 | The profile returned is the authenticated user's |
| Routes.RefreshHandler | apps/backend/src/modules/auth/auth.controller.ts:62-67 | Both new tokens carry the authenticated user's id as subject |
| Routes.RefreshForAuthenticatedUser | apps/backend/src/modules/auth/auth.controller.ts:62-67 | For an active stored user, refresh returns freshly generated tokens for that user |
| Routes.LogoutHandler | apps/backend/src/modules/auth/auth.controller.ts:73-78 | Logout always answers "Logged out successfully" and changes nothing |
| UserAuthRepository.FindByEmail | apps/backend/src/modules/auth/repositories/userAuth.repository.ts:12-18 | A found user is stored and has the email; none is found iff no stored user has it |
| UserAuthRepository.FindById | apps/backend/src/modules/auth/repositories/userAuth.repository.ts:20-26 | A found user is stored and has the id; none is found iff no stored user has it |
| UserAuthRepository.FindByEmailUnique | apps/backend/src/modules/auth/repositories/userAuth.repository.ts:12-18 | With unique emails, the lookup returns the one user with that email |
| UserAuthRepository.FindByIdUnique | apps/backend/src/modules/auth/repositories/userAuth.repository.ts:20-26 | With unique ids, the lookup returns the one user with that id |
| UserAuthRepository.FindTenantById | apps/backend/src/modules/auth/repositories/userAuth.repository.ts:36-42 | A found tenant has the id, whatever its `isActive`; none is found iff no tenant has it |
| UserAuthRepository.FindRoleById | apps/backend/src/modules/auth/repositories/userAuth.repository.ts:44-50 | A found role has the id; none is found iff no role has it |
| UserAuthRepository.FindAllByTenantId | apps/backend/src/modules/auth/repositories/userAuth.repository.ts:28-34 | Exactly the tenant's users; empty iff the tenant has none |
| UserAuthRepository.IndexOfId | apps/backend/src/modules/auth/repositories/userAuth.repository.ts:68-83 | The index of the stored user with the id |
| UserAuthRepository.UpdateRowsChangesOnlyTarget | apps/backend/src/modules/auth/repositories/userAuth.repository.ts:68-83 | An update changes only the target user's given fields; every other user and field is kept |
| UserAuthRepository.UserAuthRepository.constructor | apps/backend/src/modules/auth/repositories/userAuth.repository.ts:10 | The store starts with the given tenants and roles and no users |
| UserAuthRepository.UserAuthRepository.CreateUser | apps/backend/src/modules/auth/repositories/userAuth.repository.ts:52-66 | Appends the created user (active, without username) and keeps ids and emails unique |
| UserAuthRepository.UserAuthRepository.UpdateUser | apps/backend/src/modules/auth/repositories/userAuth.repository.ts:68-83 | The users become the old users with the target updated |
| AuthService.JwtSecret | apps/backend/src/modules/auth/auth.service.ts:35-37 | The configured secret when non-empty, otherwise the built-in default; never empty |
| AuthService.GenerateTokens | apps/backend/src/modules/auth/auth.service.ts:189-203 | Both tokens sign the same payload with the same secret, issued at one `now` parameter, for 900 and 604800 seconds; `expiresIn` is the access lifetime |
| AuthService.RoleIdOrDefault | apps/backend/src/modules/auth/auth.service.ts:66 | A non-empty `roleId` is used; otherwise Conflict "roleId is required for registration" |
| AuthService.RegisterErrors | apps/backend/src/modules/auth/auth.service.ts:43-67 | Errors in order: a taken email gives Conflict, then a missing tenant gives NotFound, then a missing `roleId` gives Conflict |
| AuthService.RegisterSuccess | apps/backend/src/modules/auth/auth.service.ts:57-90 | On success the stored user holds the hash of the password, and the response's tokens are generated for that user |
| AuthService.LoginNoEnumeration | apps/backend/src/modules/auth/auth.service.ts:99-115 | An unknown email and a wrong password give the same "Invalid credentials" answer |
| AuthService.LoginInactiveFirst | apps/backend/src/modules/auth/auth.service.ts:104-106 | An inactive account is refused with "Account is deactivated" before the password is checked |
| AuthService.LoginSuccess | apps/backend/src/modules/auth/auth.service.ts:96-145 | Login succeeds iff the user is active, the password matches and the tenant exists; the tokens are then generated for that user |
| AuthService.GetProfile | apps/backend/src/modules/auth/auth.service.ts:150-167 | NotFound iff no user has the id; otherwise the stored user's fields without the password hash |
| AuthService.RefreshTokens | apps/backend/src/modules/auth/auth.service.ts:172-184 | An absent or inactive user gives "Invalid refresh token"; on success the tokens belong to an active stored user |
| AuthService.RefreshTokensOfStoredUser | apps/backend/src/modules/auth/auth.service.ts:172-184 | Refresh succeeds iff the stored user is active, and returns that user's generated tokens |
| AuthService.RegisterThenLogin | apps/backend/src/modules/auth/auth.service.ts:43-145 | A user who has just registered can log in at once with the same password |
| AuthService.AuthService.constructor | apps/backend/src/modules/auth/auth.service.ts:31-37 | The service keeps its repository, the resolved secret and the hash function |
| AuthService.AuthService.Register | apps/backend/src/modules/auth/auth.service.ts:43-91 | The result is the register outcome; on success exactly one user is appended, otherwise the store is unchanged |
| Users.FindByUsername | apps/backend/src/modules/users/users.service.ts:33-37 | A found user is stored and has the username; none is found iff no stored user has it |
| Users.OrNotFound | apps/backend/src/modules/users/users.service.ts:11-21 | A missing user becomes NotFound "User not found" |
| Users.GetUserById | apps/backend/src/modules/users/users.service.ts:17-21 | NotFound iff no user has the id; otherwise the stored user with it |
| Users.GetUserByUsername | apps/backend/src/modules/users/users.service.ts:33-37 | NotFound iff no user has the username; otherwise the stored user with it |
| Users.ListOrNotFound | apps/backend/src/modules/users/users.service.ts:27-31 | Only a missing list becomes NotFound "Users not found" |
| Users.GetAllUsers | apps/backend/src/modules/users/users.service.ts:27-31 | Always succeeds, with exactly the stored users |
| Users.GetUserByTenantId | apps/backend/src/modules/users/users.service.ts:39-43 | Always succeeds, with exactly the tenant's users |
| Users.EmptyListIsNotMissing | apps/backend/src/modules/users/users.service.ts:39-43 | An empty list is a success, never NotFound |
| Users.GetMe | apps/backend/src/modules/users/users.controller.ts:27-31 | The caller's own stored record; NotFound iff it is missing |
| Users.UpdateMe | apps/backend/src/modules/users/users.controller.ts:33-41 | BadRequest "Validation error" iff the body fails the schema; otherwise the parsed body is forwarded for the caller's username |
| Users.GetAllUsersBranches | apps/backend/src/modules/users/users.controller.ts:43-56 | With read ALL the caller gets every user; otherwise a one-element list holding the caller |
| Users.GetByUsernameHandler | apps/backend/src/modules/users/users.controller.ts:58-62 | NotFound "User not found" iff no stored user has the username; otherwise a stored user with that username |
| Users.RouteParam | apps/backend/src/modules/users/users.controller.ts:64-68 | A parameter is found iff the route declares it |
| Users.TenantArgumentAsWritten | apps/backend/src/modules/users/users.controller.ts:65-66 | As written, the handler reads `tenant`, which the route does not declare |
| Users.TenantArgumentFixed | apps/backend/src/modules/users/users.controller.ts:64-66 | Corrected, the handler reads `tenantId`, the declared parameter |
| Users.TenantParameterBinding | apps/backend/src/modules/users/users.controller.ts:64-68 | The counterexample: on `/users/tenant/:tenantId` the written argument is undefined while the corrected one is the tenant id |
| Users.GetByTenantIdHandler | apps/backend/src/modules/users/users.controller.ts:64-68 | Corrected, the route answers with exactly the users of the tenant in the path |
| Users.UpdateByUsernameRule | apps/backend/src/modules/users/users.controller.ts:70-95 | For a valid body, the update goes through iff the caller may update ALL or names itself; otherwise Forbidden |
| Users.UpdateByUsernameValidatesFirst | apps/backend/src/modules/users/users.controller.ts:70-95 | An invalid body gives BadRequest before any permission check |
| Users.GetAllUsersAdminRule | apps/backend/src/modules/users/users.controller.ts:106-121 | The admin list is served iff the caller may delete users with scope ALL; otherwise Forbidden |
| Users.AdminListNeedsAllScope | apps/backend/src/modules/users/users.controller.ts:106-121 | Serving the admin list implies a stored `users` row with delete and scope ALL |
| Schemas.ParseShape | apps/backend/src/shared/pipes/zod-validation-pipe.ts:11 | An accepted object parse yields an object |
| Schemas.ParseShapeAccepts | apps/backend/src/shared/pipes/zod-validation-pipe.ts:11 | An object is accepted iff every declared field is accepted, an absent field only when optional |
| Schemas.ParseShapeStripsUnknown | apps/backend/src/shared/pipes/zod-validation-pipe.ts:11 | Every key of an accepted object's result is a declared key |
| Schemas.ParseShapeKeepsKnown | apps/backend/src/shared/pipes/zod-validation-pipe.ts:11 | A declared key present in the input is present in the result |
| Schemas.RegisterSchemaAccepts | packages/shared/src/schemas/auth.schema.ts:5-12 | A register body is accepted iff it has an email, a password of at least 6 characters, non-empty first and last names, and UUID tenant and role ids |
| Schemas.LoginSchemaAccepts | packages/shared/src/schemas/auth.schema.ts:16-19 | A login body is accepted iff it has an email and a non-empty password |
| Schemas.LoginSchemaStrips | packages/shared/src/schemas/auth.schema.ts:16-19 | An accepted login body parses to exactly its email and password; extra keys are dropped |
| Schemas.AuthResponseUserAccepts | packages/shared/src/schemas/auth.schema.ts:44-51 | The user object of an auth response is accepted iff its id, tenant and role ids are UUIDs, its email is in email form and its names are strings or null |
| Schemas.AuthResponseSchemaAccepts | packages/shared/src/schemas/auth.schema.ts:43-54 | An auth response is accepted iff its user has UUID ids, an email and nullable names, and both tokens are strings |
| Schemas.UserProfileSchemaAccepts | packages/shared/src/schemas/user.schema.ts:5-16 | A profile is accepted iff it has an id, a non-empty username, a null or well-formed email, nullable names, a boolean active flag, a tenant and two dates |
| Schemas.UpdateProfileSchemaAccepts | packages/shared/src/schemas/user.schema.ts:20-37 | Every update field is optional, so the empty object is valid; present names are 1 to 50 characters, a password hash 1 to 12, an email well-formed |
| Schemas.UuidExamples | packages/shared/src/schemas/auth.schema.ts:10-11 | A hyphenated 8-4-4-4-12 hex UUID passes; the same digits without hyphens fail |
| Schemas.Transform | apps/backend/src/shared/pipes/zod-validation-pipe.ts:9-24 | Success iff the schema parses the value, returning the parsed value; otherwise BadRequest "Validation error" |
| AuditLogs.ParseIntOfDecimal | apps/backend/src/modules/auditLog/auditLog.controller.ts:19-20 | `parseInt` of a number's decimal text is that number |
| AuditLogs.ParseIntIgnoresTrailing | apps/backend/src/modules/auditLog/auditLog.controller.ts:19-20 | `parseInt` stops at the first non-digit |
| AuditLogs.ParseIntNaN | apps/backend/src/modules/auditLog/auditLog.controller.ts:19-20 | Every text whose first character after leading whitespace and one optional sign is missing or not a decimal digit gives NaN (the empty text, a bare minus, words) |
| AuditLogs.ParseIntNegative | apps/backend/src/modules/auditLog/auditLog.controller.ts:19-20 | A leading minus negates |
| AuditLogs.PageNumber | apps/backend/src/modules/auditLog/auditLog.controller.ts:19 | The page is at least 1 |
| AuditLogs.LimitNumber | apps/backend/src/modules/auditLog/auditLog.controller.ts:20 | The limit lies in 1..100 |
| AuditLogs.PageNumberCases | apps/backend/src/modules/auditLog/auditLog.controller.ts:19 | A missing, NaN or non-positive page gives 1; otherwise the parsed page |
| AuditLogs.LimitNumberCases | apps/backend/src/modules/auditLog/auditLog.controller.ts:20 | Missing, NaN or 0 gives 50; negative gives 1; above 100 gives 100; otherwise the parsed limit |
| AuditLogs.TenantQueryAsWritten | apps/backend/src/modules/auditLog/auditLog.controller.ts:14-21 | As written, the page and limit come from the keys `page ` and `limit ` |
| AuditLogs.TenantQueryFixed | apps/backend/src/modules/auditLog/auditLog.controller.ts:14-21 | Corrected, they come from `page` and `limit` |
| AuditLogs.QueryKeysIgnored | apps/backend/src/modules/auditLog/auditLog.controller.ts:16-17 | The counterexample: `?page=3&limit=10` is served as page 1 with limit 50 |
| AuditLogs.QueryKeysFixedRead | apps/backend/src/modules/auditLog/auditLog.controller.ts:16-17 | Corrected, any in-range page and limit are read as given |
| AuditLogs.RouteServesFirstPage | apps/backend/src/modules/auditLog/auditLog.controller.ts:16-21 | As written, without the odd keys the route serves the newest 50 logs of the tenant |
| AuditLogs.ForTenant | apps/backend/src/modules/auditLog/repositories/auditLog.repository.ts:20 | Exactly the tenant's logs, a sub-multiset of the store |
| AuditLogs.FindAllByUserId | apps/backend/src/modules/auditLog/repositories/auditLog.repository.ts:32-38 | Exactly the user's logs |
| AuditLogs.SortNewestFirst | apps/backend/src/modules/auditLog/repositories/auditLog.repository.ts:21 | Sorting keeps the same logs |
| AuditLogs.InsertKeepsNewestFirst | apps/backend/src/modules/auditLog/repositories/auditLog.repository.ts:21 | Inserting by timestamp keeps a newest-first list newest-first |
| AuditLogs.SortNewestFirstSorted | apps/backend/src/modules/auditLog/repositories/auditLog.repository.ts:21 | The sort is newest-first and a permutation |
| AuditLogs.Window | apps/backend/src/modules/auditLog/repositories/auditLog.repository.ts:22-23 | At most `take` logs, and none past the end |
| AuditLogs.WindowFacts | apps/backend/src/modules/auditLog/repositories/auditLog.repository.ts:22-23 | A window holds stored logs, stays newest-first, and the full window is everything |
| AuditLogs.FindAllByTenantIdFacts | apps/backend/src/modules/auditLog/repositories/auditLog.repository.ts:15-30 | A page holds only the tenant's logs, newest first, at most `take` of them |
| AuditLogs.DefaultWindow | apps/backend/src/modules/auditLog/repositories/auditLog.repository.ts:17-18 | The repository defaults skip 0 and take 50 give the newest 50 |
| AuditLogs.SkipFacts | apps/backend/src/modules/auditLog/auditLog.service.ts:15-16 | Page 1 skips nothing, skip is never negative, and each page moves the skip by one limit |
| AuditLogs.GetAllByTenantId | apps/backend/src/modules/auditLog/auditLog.service.ts:10-17 | A page holds at most `limit` logs |
| AuditLogs.PagesAreContiguous | apps/backend/src/modules/auditLog/auditLog.service.ts:10-17 | Page n followed by page n+1 is the double-size window from page n's offset |
| AuditLogs.GetAllByUserId | apps/backend/src/modules/auditLog/auditLog.service.ts:19-21 | Exactly the user's logs |
| AuditLogs.AuditLogRepository.constructor | apps/backend/src/modules/auditLog/repositories/auditLog.repository.ts:13 | The store starts empty |
| AuditLogs.AuditLogRepository.CreateAuditLog | apps/backend/src/modules/auditLog/repositories/auditLog.repository.ts:40-58 | A store failure gives "Error creating audit log" and changes nothing; otherwise the created log is appended and returned |
| Bootstrap.CorsOrigins | apps/backend/src/main.ts:29-33 | Every origin is non-empty and trimmed |
| Bootstrap.CorsOriginsOfNothing | apps/backend/src/main.ts:29-33 | A missing or empty setting allows no origin |
| Bootstrap.CorsOriginsSingle | apps/backend/src/main.ts:29-33 | One entry gives its trimmed self, or nothing when blank |
| Bootstrap.CorsOriginsConcat | apps/backend/src/main.ts:29-33 | Comma-separated entries keep their order |
| Bootstrap.CorsOriginFor | apps/backend/src/main.ts:25-37 | Production uses the configured list; other environments allow any origin |
| JsStrings.Trim | apps/backend/src/main.ts:32 | The result is trimmed and no longer than the input |
| JsStrings.TrimOfTrimmed | apps/backend/src/main.ts:32 | Trimming a trimmed text changes nothing |
| JsStrings.TrimEmptyIff | apps/backend/src/main.ts:32 | Trimming gives the empty text iff the input is all whitespace |
| JsStrings.Split | apps/backend/src/main.ts:31 | The parts joined by the separator give back the input, and no part holds the separator |
| JsStrings.SplitConcat | apps/backend/src/main.ts:31 | Splitting `a,b` is splitting `a` followed by splitting `b` |
| JsStrings.ToLower | apps/frontend/src/features/dashboard/components/feature-navigation.tsx:35 | The length is kept and each character is lowered on its own |
| AuthHook.SignedOutStorage | apps/frontend/src/features/auth/hooks/useAuth.ts:25-34 | Both auth keys are removed and every other key is kept |
| AuthHook.SignedInStorage | apps/frontend/src/features/auth/hooks/useAuth.ts:66-78 | The token and the serialised user are stored and every other key is kept |
| AuthHook.LoadSignedInIffToken | apps/frontend/src/features/auth/hooks/useAuth.ts:36-53 | After loading, signed in iff a token remains; loading either keeps the storage or signs out |
| AuthHook.LoadIdempotent | apps/frontend/src/features/auth/hooks/useAuth.ts:36-53 | Loading twice is loading once |
| AuthHook.SignInThenLoad | apps/frontend/src/features/auth/hooks/useAuth.ts:36-78 | A reload after sign-in restores the same token and user |
| AuthHook.SignOutThenLoad | apps/frontend/src/features/auth/hooks/useAuth.ts:25-53 | A reload after sign-out stays signed out |
| AuthHook.AuthHook.constructor | apps/frontend/src/features/auth/hooks/useAuth.ts:18-23 | Starts signed out and loading, over the given storage |
| AuthHook.AuthHook.SignOut | apps/frontend/src/features/auth/hooks/useAuth.ts:25-34 | The storage loses the auth keys and nothing else, the state is signed out, and the reload run by the auth event leaves loading finished |
| AuthHook.AuthHook.LoadFromStorage | apps/frontend/src/features/auth/hooks/useAuth.ts:36-53 | State and storage become the load of the old storage (a user that does not parse signs out), and loading ends |
| AuthHook.AuthHook.SignIn | apps/frontend/src/features/auth/hooks/useAuth.ts:66-83 | The token and serialised user are stored, then the auth event's reload makes the state the load of the new storage and ends loading; when serialiser and parser agree, that is the signed-in session with the given token and user |
| PermissionHook.UsePermission | apps/frontend/src/hooks/usePermission.ts:5-16 | The scope is never empty |
| PermissionHook.UsePermissionOf | apps/frontend/src/hooks/usePermission.ts:6-8 | The hook throws iff the context holds no permissions map; with one it yields that map's entry |
| PermissionHook.UsePermissionAsWrittenThrows | apps/frontend/src/features/auth/providers/AuthProvider.tsx:31-42 | As written, every call throws whatever the table; with the map in the context it yields the entry |
| PermissionHook.UsePermissionDefaults | apps/frontend/src/hooks/usePermission.ts:8-14 | A missing table gives no flags and scope NONE; otherwise missing flags are false and a missing scope is NONE |
| PermissionHook.UsePermissionReadsOneEntry | apps/frontend/src/hooks/usePermission.ts:8 | Only the table's own entry matters |
| PermissionHook.ClientMap | apps/frontend/src/hooks/usePermission.ts:8 | The client map has the backend map's tables |
| PermissionHook.UsePermissionAgreesWithBackend | apps/frontend/src/hooks/usePermission.ts:5-16 | Over the backend's map, the hook's flag and scope are the backend's |
| FeatureNavigation.Flatten | apps/frontend/src/features/dashboard/components/feature-navigation.tsx:13 | Exactly the items of all groups |
| FeatureNavigation.VisibleItems | apps/frontend/src/features/dashboard/components/feature-navigation.tsx:16-29 | Exactly the items with dashboard metadata whose required table, if any, has a truthy `canRead` |
| FeatureNavigation.CardsOf | apps/frontend/src/features/dashboard/components/feature-navigation.tsx:30-37 | One card per item, in order |
| FeatureNavigation.FeatureCardsSpec | apps/frontend/src/features/dashboard/components/feature-navigation.tsx:13-37 | A card is shown iff it is the card of a visible item; the cards of joined groups are joined |
| FeatureNavigation.FeatureCardsOf | apps/frontend/src/features/dashboard/components/feature-navigation.tsx:9-24 | With no map in the context the cards throw iff some item with dashboard metadata requires a permission; with a map they are the cards of that map |
| FeatureNavigation.FeatureCardsAsWrittenThrows | apps/frontend/src/features/dashboard/components/feature-navigation.tsx:9-24 | As written the configured navigation throws, while the corrected context with read access to `users` shows the "Usuarios" card |
| FeatureNavigation.DashboardNeverCard | apps/frontend/src/lib/config/navigations.ts:49-55 | The Dashboard item never becomes a card |
| FeatureNavigation.CardFields | apps/frontend/src/features/dashboard/components/feature-navigation.tsx:30-37 | A card copies title, link and stats label; a missing description falls back to the generated one |
| FeatureNavigation.FeatureCardsMonotone | apps/frontend/src/features/dashboard/components/feature-navigation.tsx:16-29 | More read permissions never hide a card |
| FeatureNavigation.VisibleItemsMonotone | apps/frontend/src/features/dashboard/components/feature-navigation.tsx:16-29 | More read permissions never shrink the visible items |
| FeatureNavigation.ConfigShape | apps/frontend/src/lib/config/navigations.ts:43-152 | Every configured item other than Dashboard has a dashboard entry and a required permission |
| FeatureNavigation.NoPermissionsNoCards | apps/frontend/src/lib/config/navigations.ts:43-152 | A user with no permissions sees no cards |
| ProfileState.UseAuthUserProfile | apps/frontend/src/features/auth/hooks/use-authUser.tsx:29-36 | The profile is the query's data; loading is either loading flag; database unavailable is the query error |
| ProfileState.PendingPermissionsIff | apps/frontend/src/features/auth/hooks/use-authUser.tsx:36 | Pending iff signed in with a successful query and no truthy profile (`null` data counts as none), so never alongside a profile |
| ProfileState.ContextOf | apps/frontend/src/features/auth/providers/AuthProvider.tsx:29-42 | Login is complete iff signed in and the profile data is not `undefined` |
| ProfileState.ChildrenIff | apps/frontend/src/components/common/dashboard-protected-layout.tsx:40-59 | The children render iff nothing loads, signed in, database up, nothing pending and a profile |
| ProfileState.ScreenPrecedence | apps/frontend/src/components/common/dashboard-protected-layout.tsx:40-59 | The database page wins over the pending page, and loading or signed out shows the spinner |
| ProfileState.LayoutOverProfile | apps/frontend/src/components/common/dashboard-protected-layout.tsx:29-59 | A redirect never coincides with the children; an arrived profile shows them; an empty success shows the pending page |
| UserQueries.ByUserNameKey | apps/frontend/src/features/users/hooks/useUsers.ts:10-15 | The key extends the user's `all` key |
| UserQueries.ByTenantIdKey | apps/frontend/src/features/users/hooks/useUsers.ts:16-21 | The key extends the user's `all` key |
| UserQueries.CurrentUserId | apps/frontend/src/features/users/hooks/useUsers.ts:26 | The profile id when non-empty, otherwise "anonymous"; never empty |
| UserQueries.KeysDistinct | apps/frontend/src/features/users/hooks/useUsers.ts:8-22 | By-username and by-tenant keys never coincide |
| UserQueries.KeysSeparateUsers | apps/frontend/src/features/users/hooks/useUsers.ts:8-22 | Different users never share a key |
| UserQueries.InvalidationCoverage | apps/frontend/src/features/users/hooks/useUsers.ts:80 | The `["users"]` invalidation covers every users key and not the profile key |
| RegisterForm.PasswordAccepted | apps/frontend/src/features/auth/components/register-form.tsx:66-75 | Example: "Vivero2024" is valid |
| RegisterForm.PasswordValidExtends | apps/frontend/src/features/auth/components/register-form.tsx:66-75 | Appending characters to a valid password keeps it valid: each requirement asks for a minimum length or for some character of a class |
| RegisterForm.PasswordRefused | apps/frontend/src/features/auth/components/register-form.tsx:66-75 | Examples, one per requirement: "vivero2024", "VIVERO2024", "ViveroVerde" and "Viv2024" are refused |
| RegisterForm.FormPasswordMeetsSchema | apps/frontend/src/features/auth/components/register-form.tsx:68 | A password the form accepts meets the register schema's minimum length |
| RegisterForm.MismatchHintIff | apps/frontend/src/features/auth/components/register-form.tsx:76 | The mismatch hint shows iff a confirmation is typed and differs |
| RegisterForm.SubmitErrorOrder | apps/frontend/src/features/auth/components/register-form.tsx:78-105 | The password message first, the mismatch second, a rejection's message only after submitting |
| RegisterForm.EnabledIffPassesChecks | apps/frontend/src/features/auth/components/register-form.tsx:75-76 | The button is enabled iff not loading and the submit checks pass |
| RegisterForm.RegisterFormState.constructor | apps/frontend/src/features/auth/components/register-form.tsx:56-63 | The form starts empty, idle and without error |
| RegisterForm.RegisterFormState.HandleSubmit | apps/frontend/src/features/auth/components/register-form.tsx:78-105 | The error is the submit error; exactly one submission is recorded iff the checks pass and a handler exists; the fields are kept |
| DataTable.ActionCellOf | apps/frontend/src/components/data-display/data-table/data-table.tsx:102-138 | No actions iff neither update nor delete is allowed |
| DataTable.ActionButtons | apps/frontend/src/components/data-display/data-table/data-table.tsx:109-138 | An Edit button iff update, a Delete button iff delete, and never an empty cell |
| DataTable.EnhancedColumns | apps/frontend/src/components/data-display/data-table/data-table.tsx:141-144 | The caller's columns followed by the action column |
| DataTable.HideableColumns | apps/frontend/src/components/data-display/data-table/data-table.tsx:229-231 | Exactly the hideable columns |
| DataTable.ActionColumnNotHideable | apps/frontend/src/components/data-display/data-table/data-table.tsx:141-144 | The action column never appears in the visibility menu |
| DataTable.SelectedRows | apps/frontend/src/components/data-display/data-table/data-table.tsx:186-188 | Exactly the rows whose index is selected and passes the filters, each taken once, in table order |
| DataTable.SelectedRowsInOrder | apps/frontend/src/components/data-display/data-table/data-table.tsx:186-188 | The selected rows are the table rows at the ascending selected-and-passing indices, one for one |
| DataTable.ExportRowsFacts | apps/frontend/src/components/data-display/data-table/data-table.tsx:184-192 | With a visible selection exactly the selected rows are exported, without one the whole table; exported rows are table rows, and nothing is exported only for an empty table |
| DataTable.HandleExport | apps/frontend/src/components/data-display/data-table/data-table.tsx:184-192 | A call is made iff an export handler exists, with the format and the export rows |
| DataTable.ConfirmDeleteFacts | apps/frontend/src/components/data-display/data-table/data-table.tsx:173-182 | Confirming closes the dialog, deletes at most the pending item, and clears the selection only with a handler |
| DataTable.DeleteSingleThenConfirm | apps/frontend/src/components/data-display/data-table/data-table.tsx:168-182 | Delete then confirm deletes exactly that row |
| DataTable.DataTableState.constructor | apps/frontend/src/components/data-display/data-table/data-table.tsx:91-95 | Starts closed, with nothing pending or selected |
| DataTable.DataTableState.HandleDeleteSingle | apps/frontend/src/components/data-display/data-table/data-table.tsx:168-171 | Opens the dialog for the item and deletes nothing |
| DataTable.DataTableState.ConfirmDelete | apps/frontend/src/components/data-display/data-table/data-table.tsx:173-182 | The dialog state and the deletion log follow the confirm step |
| UserViews.CountActive | apps/frontend/src/features/users/components/user-kpi.tsx:12 | At most the number of users |
| UserViews.CountInactive | apps/frontend/src/features/users/components/user-kpi.tsx:13 | At most the number of users |
| UserViews.CountEmail | apps/frontend/src/features/users/components/user-kpi.tsx:14 | At most the number of users |
| UserViews.UserKpis | apps/frontend/src/features/users/components/user-kpi.tsx:11-14 | All zero before the data arrives; otherwise the total is the length and each count is bounded by it |
| UserViews.ActivePlusInactive | apps/frontend/src/features/users/components/user-kpi.tsx:12-13 | Active plus inactive is the total |
| UserViews.KpisPartition | apps/frontend/src/features/users/components/user-kpi.tsx:11-13 | The KPI counts partition the users |
| UserViews.KpisAddUser | apps/frontend/src/features/users/components/user-kpi.tsx:11-14 | A new user raises the total by one, the active or the inactive count by one according to its status, and the email count by one iff its email contains "@" |
| UserViews.FullName | apps/frontend/src/features/users/components/columns.tsx:37-41 | The cell is never empty |
| UserViews.FullNameParts | apps/frontend/src/features/users/components/columns.tsx:37-41 | One name part shows that part trimmed; no parts show "No name" |
| UserViews.StatusOf | apps/frontend/src/features/users/components/columns.tsx:43-51 | "Activo" and healthy iff active; otherwise "Inactivo" and inactive |
| UserViews.SelectColumnFlags | apps/frontend/src/features/users/components/columns.tsx:53-104 | The select column can be neither sorted nor hidden; the menu lists every other user column |

## Left out

- Cryptography: bcrypt becomes the `hash` and `compare` parameters, and a signed JWT is a symbolic `Token`. Verification is matching the secret and checking the lifetime, and decoding the header text is a parameter.
- The wall clock: `now` and the issue time are parameters. `GenerateTokens` issues both tokens at one `now`, while each `jwt.sign` call reads the clock for its own `iat`, so the two may differ by a second. Generated ids and `createdAt` timestamps are parameters too.
- Database I/O: every Prisma call is a pure update of a sequence of rows. Transactions, connection failures and the Prisma error classes are not modelled, except the audit-log store failure, which is a flag.
- Secret configuration: `AuthService` reads `JWT_SECRET` while the strategy reads `config.jwt.secret`. The model assumes both hold the same value.
- NestJS machinery: `Reflector`, decorators and module wiring become an explicit route table (`Routes.DeclaredPermission`, `Routes.DeclaredPublic`) plus the guard order in `app.module.ts`.
- Text handling: string lengths count characters, not UTF-16 code units.
- Email validation: zod's email check is the `isEmail` parameter.
- JsStrings.ToLower: lowers ASCII and Latin-1 letters only.
- Number parsing: `parseInt` ignores the 2^53 limit of JavaScript numbers.
- AuditLogs.GetAllByTenantId: requires page at least 1 and a non-negative limit. The controller always supplies these; direct service calls with other values are not modelled.
- AuditLogs.SortNewestFirst: the relative order of logs with equal timestamps is not stated, because the database leaves it unspecified.
- Users repository: `UsersRepository` is not part of this model. Its lookups are modelled as the auth repository's lookups by id, username and tenant.
- Guards.ValidatePayload: `jwt-auth.strategy.ts:27` calls `authService.validateUser`, but `AuthService` defines no such method (see Findings). The model assumes the intended lookup of the payload's subject by id, so `Guards.AuthenticateOutcome`, `Guards.LoginTokenAuthenticates`, `Guards.GuardChainProtected` and `Routes.RefreshForAuthenticatedUser` hold only under that assumption.
- Users.DeleteByUsername: the handler calls `usersService.softDeleteUserByUsername` (`users.controller.ts:103`), which `users.service.ts` does not define. The model stops at the forwarded `SoftDeleteRequest` and promises nothing about what a soft delete does to the users.
- Users.GetAllUsersAdmin: the handler calls `usersService.getAllUsersAdmin` (`users.controller.ts:115`), which `users.service.ts` does not define. The model stops at the forwarded `AllUsersAdminRequest` and promises nothing about the list it would return.
- Users.GetAllUsersAdminRule: states only the permission decision and the forwarded request; because `getAllUsersAdmin` is undefined in the service, the admin list itself is not modelled.
- PermissionsRepository.PermissionsRepository.DeleteByUserIdTableName: requires the row to exist. Prisma throws for a missing row, and the model does not give that error.
- PermissionsService.PermissionsService.RevokeTablePermissions: for an allowed table, requires the user to have a row for it. The repository delete it calls throws in Prisma for a missing row, and the model does not give that error.
- The database column defaults used when upsert creates a row are a `defaults` parameter.
- Zod pipe: the pipe's catch branch is not modelled, because `safeParse` does not throw.
- Logging: the `console.error` of `createAuditLog`'s catch branch and the other `console.log` calls are output only and are not modelled.
- `useAuth`: the `storage` event listener and its cleanup are not modelled. The `AUTH_EVENT` listener is modelled as registered, that is, after the hook's effects have run: `AuthHook.AuthHook.SignIn` and `AuthHook.AuthHook.SignOut` end with the reload it runs. React's batching of `setState` calls is modelled by their order, the last one winning.
- React Query: caching, retries and refetching are left out. Only the flags the hooks read are inputs.
- Permissions in the client context: `AuthProvider` puts no `permissions` field in the context, so as written `usePermission`, `FeatureNavigation` and every `DataTable` (which calls `usePermission` at `data-table.tsx:96`) throw a TypeError (see Findings; `next.config.ts:6` sets `ignoreBuildErrors`, so the type error does not stop the build). `PermissionHook.UsePermission`, `FeatureNavigation.FeatureCards` and the data-table members take the map explicitly, as the corrected provider would supply it. The data table's as-written throw is not modelled as a member of its own: it is the throw of `PermissionHook.UsePermissionOf`.
- The route constants of `constants/routes.ts` are not part of this model. Links are plain strings.
- Rendering: icons, JSX layout and styling are left out, as are the desktop and mobile navigation.
- Left out as presentation or test scaffolding: the dashboard KPI figures (floating point), the mock dashboard service, and the timers.
- The `useLogin`, `useRegister` and `useLogout` wrappers hold no logic of their own beyond the service calls and the `useAuth` operations modelled here.
- Decorator handling: TypeScript's `__decorate` and `reflect-metadata`'s `Reflect.decorate` are applied by hand in `Routes.HandlerMetaAsWritten` and `Routes.ControllerLoadsAsWritten`: every decorator entry is called, and an entry that is not a function throws while the class is defined. The health controller, which `app.module.ts` also registers, is not part of this model; it has no `@RequirePermission`.

## Findings

| source | as written | input that shows it | evidently intended | confidence | as-written member | corrected member |
|---|---|---|---|---|---|---|
| apps/backend/src/modules/permissions/decorators/require-permission.decorator.ts:8-10 | The arrow function's body is a block that calls `SetMetadata` and returns nothing, so `@RequirePermission(...)` hands `undefined` to `__decorate`; `Reflect.decorate` calls it and throws "decorator is not a function" while `users.controller.ts` loads, and `app.module.ts` imports that controller, so the backend never starts (TypeScript also rejects the decorator) | Starting the backend; then, for instance, a user granted every flag with scope ALL on `users` calling `GET /users/me` gets no answer at all | Return `SetMetadata(REQUIRE_PERMISSION_KEY, permission)` so the guard decides by the declared check | not executed | Routes.AsWrittenNeverServesGrantedUser | Routes.FixedDecidesByDeclaredCheck |
| apps/backend/src/modules/auditLog/auditLog.controller.ts:16-17 | `@Query('page ')` and `@Query('limit ')` name keys with a trailing space, so the usual query string is ignored and the defaults apply | `?page=3&limit=10` is served as page 1 with limit 50 | Read the `page` and `limit` keys | not executed | AuditLogs.QueryKeysIgnored | AuditLogs.QueryKeysFixedRead |
| apps/backend/src/modules/users/users.controller.ts:64-67 | The route declares `:tenantId` but the handler reads `@Param('tenant')`, so the service receives `undefined` | `GET /users/tenant/t1` looks up tenant `undefined` | Read `@Param('tenantId')` | not executed | Users.TenantParameterBinding | Users.GetByTenantIdHandler |
| apps/backend/src/modules/auth/strategies/jwt-auth.strategy.ts:27 | `validate` calls `this.authService.validateUser(payload.sub)`, and `AuthService` defines no `validateUser`, so every call throws a TypeError and the guard answers 500 (TypeScript also rejects the call) | Any request to a protected route with an unexpired Bearer access token from login, for an active user | Look the subject up by id and refuse a missing or inactive user with "User no longer active or exists" | not executed | Guards.ValidateUserUndefined | Guards.ValidatePayload |
| apps/frontend/src/hooks/usePermission.ts:6-8 | The context value built at `AuthProvider.tsx:31-42` has no `permissions`, so `permissions[tableName]` reads a property of `undefined` and throws on every call; the build does not catch it because `ignoreBuildErrors` is set | Rendering any `DataTable`, for instance the users table with `tableName` "users" | Put the user's permissions map in the context, so the hook reads its entry | not executed | PermissionHook.UsePermissionAsWrittenThrows | PermissionHook.UsePermissionAgreesWithBackend |
| apps/frontend/src/features/dashboard/components/feature-navigation.tsx:9-24 | `permissions` from the context is `undefined`, so the filter throws at "Plantas", the first item with dashboard metadata and a required permission | Rendering the dashboard's feature navigation with the configured groups | Read the permissions map from the context, so a card shows iff its table is readable | not executed | FeatureNavigation.FeatureCardsAsWrittenThrows | FeatureNavigation.FeatureCardsSpec |
