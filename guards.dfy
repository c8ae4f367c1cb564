/** The two global guards a request passes before its handler runs:
    `GlobalAuthGuard` (public bypass, else the JWT strategy) and then
    `PermissionsGuard` (public bypass, deny without metadata, else `canPerform`). */
module Guards {
  import opened Common
  import opened JsStrings
  import opened PermissionsRepository
  import opened PermissionsService
  import opened UserAuthRepository
  import opened AuthService

  // ---------------------------------------------------------------------
  // Bearer token extraction (section 2.1 of RFC 6750)
  // ---------------------------------------------------------------------

  /** The longest prefix of `s` without whitespace. */
  function TakeWord(s: string): (r: string)
    ensures |r| <= |s| && r == s[..|r|]
    ensures forall k :: 0 <= k < |r| ==> !IsJsWhitespace(r[k])
    ensures |r| < |s| ==> IsJsWhitespace(s[|r|])
  {
    if s == [] || IsJsWhitespace(s[0]) then [] else [s[0]] + TakeWord(s[1..])
  }

  lemma {:induction false} TakeWordOfWordThenSpace(w: string, c: char, rest: string)
    requires forall k :: 0 <= k < |w| ==> !IsJsWhitespace(w[k])
    requires IsJsWhitespace(c)
    ensures TakeWord(w + [c] + rest) == w
  {
    if w != [] {
      assert (w + [c] + rest)[1..] == w[1..] + [c] + rest;
      TakeWordOfWordThenSpace(w[1..], c, rest);
    }
  }

  lemma {:induction false} TakeWordOfWord(w: string)
    requires forall k :: 0 <= k < |w| ==> !IsJsWhitespace(w[k])
    ensures TakeWord(w) == w
  {
    if w != [] {
      TakeWordOfWord(w[1..]);
    }
  }

  /** `ExtractJwt.fromAuthHeaderAsBearerToken()`: the header is matched against
      "a word, whitespace, a word"; the first word must be `bearer` in any case,
      and the second word is the token. */
  function ExtractBearerToken(authorization: Option<string>): (r: Option<string>)
    ensures r.Some? ==> r.value != [] && forall k :: 0 <= k < |r.value| ==> !IsJsWhitespace(r.value[k])
  {
    if authorization.None? then None
    else
      var s := TrimStart(authorization.value);
      var scheme := TakeWord(s);
      var afterScheme := s[|scheme|..];
      var rest := TrimStart(afterScheme);
      var value := TakeWord(rest);
      if scheme == [] || |rest| == |afterScheme| || value == [] then None
      else if ToLower(scheme) == "bearer" then Some(value)
      else None
  }

  /** How `ExtractBearerToken` reads a header with no leading whitespace,
      given the scheme word and the token that follows the separator. */
  lemma ExtractBearerStages(h: string, scheme: string, token: string)
    requires TrimStart(h) == h && TakeWord(h) == scheme && scheme != []
    requires TrimStart(h[|scheme|..]) == token && |token| < |h[|scheme|..]|
    requires token != [] && TakeWord(token) == token
    ensures ExtractBearerToken(Some(h)) == if ToLower(scheme) == "bearer" then Some(token) else None
  {
  }

  lemma BearerLowered()
    ensures ToLower("Bearer") == "bearer"
  {
  }

  /** `Authorization: Bearer <token>` yields the token, for a token without whitespace. */
  lemma ExtractBearerOfBearerHeader(token: string)
    requires token != [] && forall k :: 0 <= k < |token| ==> !IsJsWhitespace(token[k])
    ensures ExtractBearerToken(Some("Bearer " + token)) == Some(token)
  {
    var h := "Bearer " + token;
    assert TrimStart(h) == h by {
      assert h != [] && h[0] == 'B';
      TrimStartKeeps(h);
    }
    BearerSchemeWord(token);
    assert TrimStart(h[6..]) == token && |token| < |h[6..]| by {
      assert h[6..] == [' '] + token;
      TrimStartPrepend(' ', token);
      TrimStartKeeps(token);
    }
    TakeWordOfWord(token);
    BearerLowered();
    ExtractBearerStages(h, "Bearer", token);
  }

  lemma BearerSchemeWord(token: string)
    ensures TakeWord("Bearer " + token) == "Bearer"
  {
    assert "Bearer " + token == "Bearer" + [' '] + token;
    TakeWordOfWordThenSpace("Bearer", ' ', token);
  }

  /** A missing header, or one with a scheme other than Bearer, yields no token. */
  lemma ExtractBearerNeedsBearer(scheme: string, token: string)
    requires scheme != [] && forall k :: 0 <= k < |scheme| ==> !IsJsWhitespace(scheme[k])
    requires ToLower(scheme) != "bearer"
    ensures ExtractBearerToken(None) == None
    ensures ExtractBearerToken(Some(scheme + " " + token)) == None
  {
    var h := scheme + " " + token;
    assert !IsJsWhitespace(h[0]);
    assert TrimStart(h) == h;
    assert h == scheme + [' '] + token;
    TakeWordOfWordThenSpace(scheme, ' ', token);
  }

  // ---------------------------------------------------------------------
  // JwtStrategy
  // ---------------------------------------------------------------------

  /** What `validate` attaches as `request.user`. */
  datatype AuthUser = AuthUser(id: string, username: Option<string>, tenantId: string)

  /** jsonwebtoken's verification with `ignoreExpiration: false`: the signature
      must be by `secret`, and the token is expired from `issuedAt + lifetime` on. */
  predicate TokenVerifies(t: Token, secret: string, now: int) {
    t.secret == secret && now < t.issuedAt + t.lifetime
  }

  /** `JwtStrategy.validate`: the user is looked up by `sub` alone, and the
      identity comes from the stored user, not from the token. */
  function ValidatePayload(users: seq<User>, payload: JwtPayload): (r: Result<AuthUser>)
    ensures r.Err? <==> (FindById(users, payload.sub).None? || !FindById(users, payload.sub).value.isActive)
    ensures r.Err? ==> r.error == Unauthorized("User no longer active or exists")
    ensures r.Ok? ==> exists u :: (u in users && u.id == payload.sub && u.isActive
                                   && r.value == AuthUser(u.id, u.username, u.tenantId))
  {
    match FindById(users, payload.sub)
    case None => Err(Unauthorized("User no longer active or exists"))
    case Some(u) =>
      if !u.isActive then Err(Unauthorized("User no longer active or exists"))
      else Ok(AuthUser(u.id, u.username, u.tenantId))
  }

  /** `JwtStrategy.validate` as written: it calls `authService.validateUser`,
      which `AuthService` does not define, so the call throws a TypeError
      before any lookup; passport hands the error to the guard and Nest
      answers with its generic 500, whatever the payload. */
  function ValidatePayloadAsWritten(users: seq<User>, payload: JwtPayload): (r: Result<AuthUser>)
    ensures r.Err? && r.error.InternalServerError?
  {
    Err(InternalServerError("Internal server error"))
  }

  /** An active stored user's payload: refused by the strategy as written,
      accepted with that user's identity by the lookup by id. */
  lemma ValidateUserUndefined(users: seq<User>, u: User)
    requires UniqueUsers(users) && u in users && u.isActive
    ensures ValidatePayloadAsWritten(users, PayloadOf(u)).Err?
    ensures ValidatePayload(users, PayloadOf(u)) == Ok(AuthUser(u.id, u.username, u.tenantId))
  {
    FindByIdUnique(users, u.id, u);
  }

  /** The `tenantId` and `roleId` claims play no part in validation. */
  lemma ValidateIgnoresTenantAndRole(users: seq<User>, p: JwtPayload, q: JwtPayload)
    requires p.sub == q.sub
    ensures ValidatePayload(users, p) == ValidatePayload(users, q)
  {
  }

  /** The whole passport-jwt authentication: extract, decode (a parameter:
      parsing the compact token text), verify, validate. */
  function Authenticate(authorization: Option<string>, decode: string -> Option<Token>,
                        secret: string, now: int, users: seq<User>): Result<AuthUser>
  {
    match ExtractBearerToken(authorization)
    case None => Err(Unauthorized("Unauthorized"))
    case Some(text) =>
      match decode(text)
      case None => Err(Unauthorized("Unauthorized"))
      case Some(t) =>
        if !TokenVerifies(t, secret, now) then Err(Unauthorized("Unauthorized"))
        else ValidatePayload(users, t.payload)
  }

  /** Authentication either fails with Unauthorized or yields an active stored user. */
  lemma AuthenticateOutcome(authorization: Option<string>, decode: string -> Option<Token>,
                            secret: string, now: int, users: seq<User>)
    ensures var r := Authenticate(authorization, decode, secret, now, users);
      && (r.Err? ==> r.error.Unauthorized?)
      && (r.Ok? ==> exists u :: (u in users && u.isActive && r.value == AuthUser(u.id, u.username, u.tenantId)))
      && (authorization.None? ==> r == Err(Unauthorized("Unauthorized")))
  {
  }

  /** An access token from login authenticates its user while it is younger than
      15 minutes, provided the strategy is configured with the same secret the
      service signs with. The token is not accepted from 15 minutes on. */
  lemma LoginTokenAuthenticates(users: seq<User>, tenants: seq<Tenant>, dto: LoginDto,
                                compare: (string, string) -> bool, secret: string, issued: int, now: int,
                                text: string, decode: string -> Option<Token>, u: User)
    requires UniqueUsers(users) && u in users && u.email == dto.email
    requires Login(users, tenants, dto, compare, secret, issued).Ok?
    requires text != [] && forall k :: 0 <= k < |text| ==> !IsJsWhitespace(text[k])
    requires decode(text) == Some(Login(users, tenants, dto, compare, secret, issued).value.tokens.accessToken)
    ensures issued <= now < issued + 900 ==>
      Authenticate(Some("Bearer " + text), decode, secret, now, users) == Ok(AuthUser(u.id, u.username, u.tenantId))
    ensures now >= issued + 900 ==>
      Authenticate(Some("Bearer " + text), decode, secret, now, users) == Err(Unauthorized("Unauthorized"))
  {
    LoginSuccess(users, tenants, dto, compare, secret, issued, u);
    var t := Login(users, tenants, dto, compare, secret, issued).value.tokens.accessToken;
    assert t == Token(PayloadOf(u), secret, 900, issued);
    AuthenticateBearer(text, decode, t, secret, now, users);
    FindByIdUnique(users, u.id, u);
    assert ValidatePayload(users, t.payload) == Ok(AuthUser(u.id, u.username, u.tenantId));
  }

  /** A Bearer header whose token text decodes to `t`: the outcome is `t`'s verification, then its payload's validation. */
  lemma AuthenticateBearer(text: string, decode: string -> Option<Token>, t: Token,
                           secret: string, now: int, users: seq<User>)
    requires text != [] && forall k :: 0 <= k < |text| ==> !IsJsWhitespace(text[k])
    requires decode(text) == Some(t)
    ensures Authenticate(Some("Bearer " + text), decode, secret, now, users) ==
      if TokenVerifies(t, secret, now) then ValidatePayload(users, t.payload) else Err(Unauthorized("Unauthorized"))
  {
    ExtractBearerOfBearerHeader(text);
  }

  /** The strategy does not tell access from refresh tokens: a refresh token,
      signed with the same payload and secret, authenticates for 7 days. */
  lemma RefreshTokenAuthenticates(payload: JwtPayload, secret: string, issued: int, now: int,
                                  text: string, decode: string -> Option<Token>, users: seq<User>)
    requires text != [] && forall k :: 0 <= k < |text| ==> !IsJsWhitespace(text[k])
    requires decode(text) == Some(GenerateTokens(payload, secret, issued).refreshToken)
    requires issued + 900 <= now < issued + 604800
    ensures Authenticate(Some("Bearer " + text), decode, secret, now, users) == ValidatePayload(users, payload)
  {
    ExtractBearerOfBearerHeader(text);
  }

  // ---------------------------------------------------------------------
  // Route metadata and the two guards
  // ---------------------------------------------------------------------

  /** What `Reflector` finds on a handler and on its controller class. */
  datatype RouteMeta = RouteMeta(
    publicOnHandler: bool, publicOnClass: bool,
    permissionOnHandler: Option<PermissionCheck>, permissionOnClass: Option<PermissionCheck>)

  /** `getAllAndOverride(IS_PUBLIC_KEY, [handler, class])`. */
  predicate IsPublic(meta: RouteMeta) {
    meta.publicOnHandler || meta.publicOnClass
  }

  /** `getAllAndOverride(REQUIRE_PERMISSION_KEY, [handler, class])`: the
      handler's value when it has one, else the class's. */
  function RequiredPermission(meta: RouteMeta): (r: Option<PermissionCheck>)
    ensures meta.permissionOnHandler.Some? ==> r == meta.permissionOnHandler
    ensures meta.permissionOnHandler.None? ==> r == meta.permissionOnClass
  {
    if meta.permissionOnHandler.Some? then meta.permissionOnHandler else meta.permissionOnClass
  }

  /** `GlobalAuthGuard.canActivate`. Its result is the `request.user` it leaves:
      none on a public route; on any other route either a refusal with
      Unauthorized, or the identity of the active stored user whose id is the
      subject of a Bearer token that decodes and verifies. */
  function GlobalAuthGuard(meta: RouteMeta, authorization: Option<string>, decode: string -> Option<Token>,
                           secret: string, now: int, users: seq<User>): (r: Result<Option<AuthUser>>)
    ensures IsPublic(meta) ==> r == Ok(None)
    ensures !IsPublic(meta) ==> r != Ok(None)
    ensures r.Err? ==> r.error.Unauthorized?
    ensures !IsPublic(meta) && authorization.None? ==> r == Err(Unauthorized("Unauthorized"))
    ensures r.Ok? && r.value.Some? ==>
      && ExtractBearerToken(authorization).Some?
      && decode(ExtractBearerToken(authorization).value).Some?
      && var t := decode(ExtractBearerToken(authorization).value).value;
      && TokenVerifies(t, secret, now)
      && exists u :: (u in users && u.id == t.payload.sub && u.isActive
                      && r.value.value == AuthUser(u.id, u.username, u.tenantId))
  {
    if IsPublic(meta) then Ok(None)
    else
      match Authenticate(authorization, decode, secret, now, users)
      case Ok(u) => Ok(Some(u))
      case Err(e) => Err(e)
  }

  /** The action's name in the guard's error message. */
  function ActionName(action: CrudAction): string {
    match action
    case Create => "create"
    case Read => "read"
    case Update => "update"
    case Delete => "delete"
  }

  /** `PermissionsGuard.canActivate`, deciding with `canPerform` on the store `rows`. */
  function PermissionsGuard(meta: RouteMeta, user: Option<AuthUser>, rows: seq<PermissionRecord>): Result<bool> {
    if IsPublic(meta) then Ok(true)
    else match RequiredPermission(meta)
      case None => Err(Forbidden("Route requires permissions"))
      case Some(required) =>
        if user.None? || user.value.id == "" then Err(Forbidden("User not authenticated"))
        else match CanPerformOn(rows, user.value.id, required)
          case Err(e) => Err(e)
          case Ok(allowed) =>
            if !allowed then
              Err(Forbidden("You do not have permission to " + ActionName(required.action) + " on " + required.tableName))
            else Ok(true)
  }

  /** The branches of `PermissionsGuard`: the public bypass needs neither
      metadata nor user; without metadata every user is refused; without a
      user id every request is refused; otherwise the declared check decides,
      a deny naming the action and the table. */
  lemma PermissionsGuardBranches(meta: RouteMeta, user: Option<AuthUser>, rows: seq<PermissionRecord>)
    ensures IsPublic(meta) ==> PermissionsGuard(meta, user, rows) == Ok(true)
    ensures !IsPublic(meta) && RequiredPermission(meta).None? ==>
      PermissionsGuard(meta, user, rows) == Err(Forbidden("Route requires permissions"))
    ensures !IsPublic(meta) && RequiredPermission(meta).Some? && (user.None? || user.value.id == "") ==>
      PermissionsGuard(meta, user, rows) == Err(Forbidden("User not authenticated"))
    ensures !IsPublic(meta) && RequiredPermission(meta).Some? && user.Some? && user.value.id != "" ==>
      var req := RequiredPermission(meta).value;
      && (PermissionsGuard(meta, user, rows) == Ok(true) <==> CanPerformOn(rows, user.value.id, req) == Ok(true))
      && (CanPerformOn(rows, user.value.id, req) == Ok(false) ==>
            PermissionsGuard(meta, user, rows)
              == Err(Forbidden("You do not have permission to " + ActionName(req.action) + " on " + req.tableName)))
  {
  }

  /** The guard never answers false: it allows, or it throws. */
  lemma PermissionsGuardNeverFalse(meta: RouteMeta, user: Option<AuthUser>, rows: seq<PermissionRecord>)
    ensures PermissionsGuard(meta, user, rows) != Ok(false)
  {
  }

  /** The two guards in their registration order: authentication, then
      authorization. The result is the user the handler sees. */
  function GuardChain(meta: RouteMeta, authorization: Option<string>, decode: string -> Option<Token>,
                      secret: string, now: int, users: seq<User>, rows: seq<PermissionRecord>): Result<Option<AuthUser>>
  {
    match GlobalAuthGuard(meta, authorization, decode, secret, now, users)
    case Err(e) => Err(e)
    case Ok(user) =>
      match PermissionsGuard(meta, user, rows)
      case Err(e) => Err(e)
      case Ok(_) => Ok(user)
  }

  /** Authentication runs first: a request that fails it gets that Unauthorized,
      whatever the permission metadata and the store. */
  lemma AuthenticationBeforeAuthorization(meta: RouteMeta, authorization: Option<string>, decode: string -> Option<Token>,
                                          secret: string, now: int, users: seq<User>, rows: seq<PermissionRecord>)
    requires !IsPublic(meta)
    requires Authenticate(authorization, decode, secret, now, users).Err?
    ensures GuardChain(meta, authorization, decode, secret, now, users, rows)
            == Err(Authenticate(authorization, decode, secret, now, users).error)
  {
  }

  /** A protected route with a declared check lets exactly the authenticated
      users through whom `canPerform` allows, and hands the handler that identity. */
  lemma GuardChainProtected(meta: RouteMeta, authorization: Option<string>, decode: string -> Option<Token>,
                            secret: string, now: int, users: seq<User>, rows: seq<PermissionRecord>)
    requires !IsPublic(meta) && RequiredPermission(meta).Some?
    ensures var r := GuardChain(meta, authorization, decode, secret, now, users, rows);
      && (r.Ok? <==> (var a := Authenticate(authorization, decode, secret, now, users);
                       a.Ok? && a.value.id != "" && CanPerformOn(rows, a.value.id, RequiredPermission(meta).value) == Ok(true)))
      && (r.Ok? ==> r.value == Some(Authenticate(authorization, decode, secret, now, users).value))
  {
  }

  /** A public route passes both guards untouched, with no user attached. */
  lemma GuardChainPublic(meta: RouteMeta, authorization: Option<string>, decode: string -> Option<Token>,
                         secret: string, now: int, users: seq<User>, rows: seq<PermissionRecord>)
    requires IsPublic(meta)
    ensures GuardChain(meta, authorization, decode, secret, now, users, rows) == Ok(None)
  {
  }
}
