/** Registration, login, profile and token refresh over the user/tenant store.
    bcrypt is a pair of function parameters (`hash`, `compare`); `jwt.sign`
    yields a symbolic token that records the payload, the secret, the
    lifetime and the issue time. */
module AuthService {
  import opened Common
  import opened UserAuthRepository

  /** The claims `generateTokens` signs. */
  datatype JwtPayload = JwtPayload(sub: string, tenantId: string, roleId: string)

  /** A signed token: what was signed, with which secret, for how long, and when. */
  datatype Token = Token(payload: JwtPayload, secret: string, lifetime: nat, issuedAt: int)

  /** `'15m'` in seconds. */
  const AccessTokenLifetime: nat := 15 * 60
  /** `'7d'` in seconds. */
  const RefreshTokenLifetime: nat := 7 * 24 * 60 * 60
  /** The secret used when `JWT_SECRET` is unset or empty. */
  const DefaultJwtSecret: string := "your-secret-key-change-me-in-production"

  /** `configService.get('JWT_SECRET') || default`: the empty string is falsy too. */
  function JwtSecret(config: Option<string>): (r: string)
    ensures r != ""
    ensures config.Some? && config.value != "" ==> r == config.value
    ensures config.None? || config.value == "" ==> r == DefaultJwtSecret
  {
    if config.Some? && config.value != "" then config.value else DefaultJwtSecret
  }

  datatype TokenPair = TokenPair(accessToken: Token, refreshToken: Token, expiresIn: nat)

  /** `generateTokens`. */
  function GenerateTokens(payload: JwtPayload, secret: string, now: int): (r: TokenPair)
    ensures r.accessToken.payload == payload && r.refreshToken.payload == payload
    ensures r.accessToken.secret == secret && r.refreshToken.secret == secret
    ensures r.accessToken.lifetime == 900 && r.refreshToken.lifetime == 604800
    ensures r.expiresIn == r.accessToken.lifetime
    ensures r.accessToken.issuedAt == now && r.refreshToken.issuedAt == now
  {
    TokenPair(Token(payload, secret, AccessTokenLifetime, now),
              Token(payload, secret, RefreshTokenLifetime, now),
              15 * 60)
  }

  /** The payload built from a stored user. */
  function PayloadOf(u: User): JwtPayload {
    JwtPayload(u.id, u.tenantId, u.roleId)
  }

  /** The `user` object of the register and login responses. */
  datatype UserView = UserView(
    id: string, email: string, firstName: Option<string>, lastName: Option<string>,
    tenantId: string, roleId: string)

  function ViewOf(u: User): UserView {
    UserView(u.id, u.email, u.firstName, u.lastName, u.tenantId, u.roleId)
  }

  datatype AuthResponse = AuthResponse(user: UserView, tokens: TokenPair)

  /** The register body as the handler receives it; `roleId` may be missing. */
  datatype RegisterDto = RegisterDto(
    email: string, password: string, firstName: string, lastName: string,
    tenantId: string, roleId: Option<string>)

  datatype LoginDto = LoginDto(email: string, password: string)

  /** `dto.roleId || getDefaultRoleId()`, where the default lookup always throws. */
  function RoleIdOrDefault(roleId: Option<string>): (r: Result<string>)
    ensures r.Ok? <==> roleId.Some? && roleId.value != ""
    ensures r.Ok? ==> r.value == roleId.value
    ensures r.Err? ==> r.error == Conflict("roleId is required for registration")
  {
    if roleId.Some? && roleId.value != "" then Ok(roleId.value)
    else Err(Conflict("roleId is required for registration"))
  }

  /** The user `register` stores for a DTO that passes all checks. */
  function RegisteredUser(dto: RegisterDto, roleId: string, hash: string -> string, newId: string, now: int): User {
    CreatedUser(NewUser(dto.email, dto.firstName, dto.lastName, hash(dto.password), dto.tenantId, roleId), newId, now)
  }

  /** The outcome of `register` on a store. */
  function RegisterOutcome(users: seq<User>, tenants: seq<Tenant>, dto: RegisterDto,
                           hash: string -> string, newId: string, now: int, secret: string): Result<AuthResponse>
  {
    if FindByEmail(users, dto.email).Some? then Err(Conflict("Email already registered"))
    else if FindTenantById(tenants, dto.tenantId).None? then Err(NotFound("Tenant not found or inactive"))
    else match RoleIdOrDefault(dto.roleId)
      case Err(e) => Err(e)
      case Ok(roleId) =>
        var u := RegisteredUser(dto, roleId, hash, newId, now);
        Ok(AuthResponse(ViewOf(u), GenerateTokens(PayloadOf(u), secret, now)))
  }

  /** The error cases of `register`, in order: a taken email first (whatever
      the tenant and role), then an unknown tenant, then a missing role. */
  lemma RegisterErrors(users: seq<User>, tenants: seq<Tenant>, dto: RegisterDto,
                       hash: string -> string, newId: string, now: int, secret: string)
    ensures (exists u :: u in users && u.email == dto.email) ==>
      RegisterOutcome(users, tenants, dto, hash, newId, now, secret) == Err(Conflict("Email already registered"))
    ensures (forall u :: u in users ==> u.email != dto.email) && (forall t :: t in tenants ==> t.id != dto.tenantId) ==>
      RegisterOutcome(users, tenants, dto, hash, newId, now, secret) == Err(NotFound("Tenant not found or inactive"))
    ensures (forall u :: u in users ==> u.email != dto.email) && (exists t :: t in tenants && t.id == dto.tenantId)
            && (dto.roleId.None? || dto.roleId.value == "") ==>
      RegisterOutcome(users, tenants, dto, hash, newId, now, secret) == Err(Conflict("roleId is required for registration"))
  {
  }

  /** A successful `register` stores the hash of the password with the given
      tenant and role, returns exactly the stored fields, and signs tokens for
      the new user's id, tenant and role. */
  lemma RegisterSuccess(users: seq<User>, tenants: seq<Tenant>, dto: RegisterDto,
                        hash: string -> string, newId: string, now: int, secret: string)
    ensures var r := RegisterOutcome(users, tenants, dto, hash, newId, now, secret);
      && (r.Ok? <==> (forall u :: u in users ==> u.email != dto.email)
                     && (exists t :: t in tenants && t.id == dto.tenantId)
                     && dto.roleId.Some? && dto.roleId.value != "")
      && (r.Ok? ==>
            var u := RegisteredUser(dto, dto.roleId.value, hash, newId, now);
            && u.passwordHash == hash(dto.password) && u.tenantId == dto.tenantId
            && u.roleId == dto.roleId.value && u.isActive && u.email == dto.email
            && r.value.user == ViewOf(u)
            && r.value.tokens.accessToken.payload == JwtPayload(newId, dto.tenantId, dto.roleId.value))
  {
  }

  /** The outcome of `login` on a store. `compare(p, h)` is bcrypt's check of
      plaintext `p` against stored hash `h`. */
  function Login(users: seq<User>, tenants: seq<Tenant>, dto: LoginDto,
                 compare: (string, string) -> bool, secret: string, now: int): Result<AuthResponse>
  {
    match FindByEmail(users, dto.email)
    case None => Err(Unauthorized("Invalid credentials"))
    case Some(u) =>
      if !u.isActive then Err(Unauthorized("Account is deactivated"))
      else if !compare(dto.password, u.passwordHash) then Err(Unauthorized("Invalid credentials"))
      else if FindTenantById(tenants, u.tenantId).None? then Err(Unauthorized("Tenant is inactive"))
      else Ok(AuthResponse(ViewOf(u), GenerateTokens(PayloadOf(u), secret, now)))
  }

  /** An unknown email and a wrong password for an active account yield the
      same error, so the response does not reveal which emails exist. */
  lemma LoginNoEnumeration(users: seq<User>, tenants: seq<Tenant>, unknown: LoginDto, wrong: LoginDto,
                           compare: (string, string) -> bool, secret: string, now: int, u: User)
    requires UniqueUsers(users)
    requires forall x :: x in users ==> x.email != unknown.email
    requires u in users && u.email == wrong.email && u.isActive && !compare(wrong.password, u.passwordHash)
    ensures Login(users, tenants, unknown, compare, secret, now) == Login(users, tenants, wrong, compare, secret, now)
    ensures Login(users, tenants, unknown, compare, secret, now) == Err(Unauthorized("Invalid credentials"))
  {
    FindByEmailUnique(users, wrong.email, u);
  }

  /** A deactivated account is refused with its own message before the
      password is looked at. */
  lemma LoginInactiveFirst(users: seq<User>, tenants: seq<Tenant>, dto: LoginDto,
                           compare: (string, string) -> bool, secret: string, now: int, u: User)
    requires UniqueUsers(users) && u in users && u.email == dto.email && !u.isActive
    ensures Login(users, tenants, dto, compare, secret, now) == Err(Unauthorized("Account is deactivated"))
  {
    FindByEmailUnique(users, dto.email, u);
  }

  /** `login` succeeds exactly for an active user with the right password and
      an existing tenant, and then signs the stored user's id, tenant and role. */
  lemma LoginSuccess(users: seq<User>, tenants: seq<Tenant>, dto: LoginDto,
                     compare: (string, string) -> bool, secret: string, now: int, u: User)
    requires UniqueUsers(users) && u in users && u.email == dto.email
    ensures var r := Login(users, tenants, dto, compare, secret, now);
      && (r.Ok? <==> u.isActive && compare(dto.password, u.passwordHash)
                     && exists t :: t in tenants && t.id == u.tenantId)
      && (r.Ok? ==> r.value.user == ViewOf(u)
                    && r.value.tokens == GenerateTokens(JwtPayload(u.id, u.tenantId, u.roleId), secret, now))
      && ((u.isActive && compare(dto.password, u.passwordHash) && (forall t :: t in tenants ==> t.id != u.tenantId))
            ==> r == Err(Unauthorized("Tenant is inactive")))
  {
    FindByEmailUnique(users, dto.email, u);
  }

  /** What `getProfile` returns: the stored user without its password hash. */
  datatype Profile = Profile(
    id: string, email: string, firstName: Option<string>, lastName: Option<string>,
    tenantId: string, roleId: string, isActive: bool, createdAt: int)

  /** `getProfile`. */
  function GetProfile(users: seq<User>, userId: string): (r: Result<Profile>)
    ensures r.Err? <==> forall u :: u in users ==> u.id != userId
    ensures r.Err? ==> r.error == NotFound("User not found")
    ensures r.Ok? ==> exists u :: (u in users && u.id == userId &&
      r.value == Profile(u.id, u.email, u.firstName, u.lastName, u.tenantId, u.roleId, u.isActive, u.createdAt))
  {
    match FindById(users, userId)
    case None => Err(NotFound("User not found"))
    case Some(u) => Ok(Profile(u.id, u.email, u.firstName, u.lastName, u.tenantId, u.roleId, u.isActive, u.createdAt))
  }

  /** `refreshTokens`: new tokens for a present, active user; Unauthorized otherwise. */
  function RefreshTokens(users: seq<User>, userId: string, secret: string, now: int): (r: Result<TokenPair>)
    ensures (forall u :: u in users ==> u.id != userId) ==> r.Err?
    ensures r.Err? ==> r.error == Unauthorized("Invalid refresh token")
    ensures r.Ok? ==> exists u :: (u in users && u.id == userId && u.isActive &&
      r.value == GenerateTokens(PayloadOf(u), secret, now))
  {
    match FindById(users, userId)
    case None => Err(Unauthorized("Invalid refresh token"))
    case Some(u) =>
      if !u.isActive then Err(Unauthorized("Invalid refresh token"))
      else Ok(GenerateTokens(PayloadOf(u), secret, now))
  }

  /** With unique ids, refresh succeeds exactly for an active stored user and
      re-signs that user's current id, tenant and role. */
  lemma RefreshTokensOfStoredUser(users: seq<User>, u: User, secret: string, now: int)
    requires UniqueUsers(users) && u in users
    ensures RefreshTokens(users, u.id, secret, now).Ok? <==> u.isActive
    ensures u.isActive ==> RefreshTokens(users, u.id, secret, now) == Ok(GenerateTokens(PayloadOf(u), secret, now))
  {
    FindByIdUnique(users, u.id, u);
  }

  /** A freshly registered user can log in with the same password at once,
      given that bcrypt accepts a password against its own hash. */
  lemma RegisterThenLogin(users: seq<User>, tenants: seq<Tenant>, dto: RegisterDto,
                          hash: string -> string, compare: (string, string) -> bool,
                          newId: string, now: int, secret: string)
    requires UniqueUsers(users) && forall x :: x in users ==> x.id != newId
    requires compare(dto.password, hash(dto.password))
    requires RegisterOutcome(users, tenants, dto, hash, newId, now, secret).Ok?
    ensures var u := RegisteredUser(dto, dto.roleId.value, hash, newId, now);
      Login(users + [u], tenants, LoginDto(dto.email, dto.password), compare, secret, now)
        == RegisterOutcome(users, tenants, dto, hash, newId, now, secret)
  {
    var u := RegisteredUser(dto, dto.roleId.value, hash, newId, now);
    var after := users + [u];
    assert UniqueUsers(after) by {
      assert forall k :: 0 <= k < |users| ==> users[k] in users;
    }
    FindByEmailUnique(after, dto.email, u);
  }

  /** The authentication service over one user store. */
  class AuthService {
    const repo: UserAuthRepository
    const secret: string
    const hash: string -> string

    constructor (repo: UserAuthRepository, jwtSecretConfig: Option<string>, hash: string -> string)
      ensures this.repo == repo && this.secret == JwtSecret(jwtSecretConfig) && this.hash == hash
    {
      this.repo := repo;
      this.secret := JwtSecret(jwtSecretConfig);
      this.hash := hash;
    }

    /** `register`: the checks in order, then one `createUser`. `newId` and
        `now` are the id and creation time the database assigns. */
    method Register(dto: RegisterDto, newId: string, now: int) returns (r: Result<AuthResponse>)
      requires repo.Valid()
      requires forall x :: x in repo.users ==> x.id != newId
      modifies repo
      ensures repo.Valid()
      ensures r == RegisterOutcome(old(repo.users), old(repo.tenants), dto, hash, newId, now, secret)
      ensures r.Ok? ==> repo.users == old(repo.users) + [RegisteredUser(dto, dto.roleId.value, hash, newId, now)]
      ensures r.Err? ==> repo.users == old(repo.users)
      ensures repo.tenants == old(repo.tenants) && repo.roles == old(repo.roles)
    {
      var existing := FindByEmail(repo.users, dto.email);
      if existing.Some? {
        return Err(Conflict("Email already registered"));
      }
      var tenant := FindTenantById(repo.tenants, dto.tenantId);
      if tenant.None? {
        return Err(NotFound("Tenant not found or inactive"));
      }
      var passwordHash := hash(dto.password);
      var roleId := RoleIdOrDefault(dto.roleId);
      if roleId.Err? {
        return Err(roleId.error);
      }
      var user := repo.CreateUser(NewUser(dto.email, dto.firstName, dto.lastName, passwordHash, dto.tenantId, roleId.value), newId, now);
      r := Ok(AuthResponse(ViewOf(user), GenerateTokens(PayloadOf(user), secret, now)));
    }
  }
}
