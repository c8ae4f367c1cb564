/** The shared zod schemas, read as predicates over JSON values, and the
    validation pipe that applies one of them to a request body.
    A schema is a value of the small language `Schema`; `Parse` is what
    `safeParse` does with it. Email syntax is a parameter `isEmail`. */
module Schemas {
  import opened Common

  /** A request body. Absent keys are absent from `JObj`'s map; numbers are integers. */
  datatype Json =
    | JNull
    | JBool(b: bool)
    | JNum(n: int)
    | JStr(s: string)
    | JDate(time: int)
    | JArr(items: seq<Json>)
    | JObj(fields: map<string, Json>)

  /** The string refinements the schemas use. */
  datatype StringRule = MinLength(min: nat) | MaxLength(max: nat) | EmailFormat | UuidFormat

  datatype Schema =
    | ZString(rules: seq<StringRule>)
    | ZBoolean
    | ZDate
    | ZNullable(inner: Schema)
    | ZOptional(inner: Schema)
    | ZObject(shape: seq<(string, Schema)>)

  predicate IsHexDigit(c: char) {
    ('0' <= c <= '9') || ('a' <= c <= 'f') || ('A' <= c <= 'F')
  }

  /** Positions of the hyphens in the 8-4-4-4-12 form. */
  predicate IsUuidHyphenPosition(i: int) {
    i == 8 || i == 13 || i == 18 || i == 23
  }

  /** The textual UUID form of section 3 of RFC 4122: 32 hexadecimal digits
      in groups of 8, 4, 4, 4 and 12 joined by hyphens, either case. */
  predicate IsUuid(s: string) {
    |s| == 36 && forall i :: 0 <= i < 36 ==> if IsUuidHyphenPosition(i) then s[i] == '-' else IsHexDigit(s[i])
  }

  predicate RuleHolds(rule: StringRule, s: string, isEmail: string -> bool) {
    match rule
    case MinLength(n) => |s| >= n
    case MaxLength(n) => |s| <= n
    case EmailFormat => isEmail(s)
    case UuidFormat => IsUuid(s)
  }

  /** Every rule of the list holds. */
  predicate RulesHold(rules: seq<StringRule>, s: string, isEmail: string -> bool) {
    rules == [] || (RuleHolds(rules[0], s, isEmail) && RulesHold(rules[1..], s, isEmail))
  }

  lemma RulesHoldOne(r: StringRule, str: string, isEmail: string -> bool)
    ensures RulesHold([r], str, isEmail) <==> RuleHolds(r, str, isEmail)
  {
    assert [r][1..] == [];
  }

  lemma RulesHoldNone(isEmail: string -> bool)
    ensures forall str :: RulesHold([], str, isEmail)
  {
  }

  lemma RulesHoldTwo(r1: StringRule, r2: StringRule, str: string, isEmail: string -> bool)
    ensures RulesHold([r1, r2], str, isEmail) <==> RuleHolds(r1, str, isEmail) && RuleHolds(r2, str, isEmail)
  {
    assert [r1, r2][1..] == [r2];
    RulesHoldOne(r2, str, isEmail);
  }

  /** A key whose absence the schema allows. */
  predicate IsOptional(s: Schema) {
    s.ZOptional?
  }

  function Width(s: Schema): nat {
    if s.ZObject? then |s.shape| + 1 else 0
  }

  /** `schema.safeParse(v)`: the parsed data on success. Objects keep only the
      keys of their shape; every leaf value is returned as it was given. */
  function Parse(schema: Schema, v: Json, isEmail: string -> bool): Option<Json>
    decreases schema, Width(schema)
  {
    match schema
    case ZString(rules) => if v.JStr? && RulesHold(rules, v.s, isEmail) then Some(v) else None
    case ZBoolean => if v.JBool? then Some(v) else None
    case ZDate => if v.JDate? then Some(v) else None
    case ZNullable(inner) => if v.JNull? then Some(JNull) else Parse(inner, v, isEmail)
    case ZOptional(inner) => Parse(inner, v, isEmail)
    case ZObject(shape) => if v.JObj? then ParseShape(schema, 0, v.fields, isEmail) else None
  }

  /** The keys `shape[i..]` of an object, checked in turn. */
  function ParseShape(parent: Schema, i: nat, m: map<string, Json>, isEmail: string -> bool): (r: Option<Json>)
    requires parent.ZObject? && i <= |parent.shape|
    ensures r.Some? ==> r.value.JObj?
    decreases parent, |parent.shape| - i
  {
    if i == |parent.shape| then Some(JObj(map[]))
    else
      var (key, s) := parent.shape[i];
      match ParseShape(parent, i + 1, m, isEmail)
      case None => None
      case Some(rest) =>
        if key !in m then
          if IsOptional(s) then Some(rest) else None
        else
          match Parse(s, m[key], isEmail)
          case None => None
          case Some(x) => Some(JObj(rest.fields[key := x]))
  }

  // ---------------------------------------------------------------------
  // The schemas of the shared package
  // ---------------------------------------------------------------------

  const RegisterAuthSchema: Schema := ZObject([
    ("email", ZString([EmailFormat])),
    ("password", ZString([MinLength(6)])),
    ("firstName", ZString([MinLength(1)])),
    ("lastName", ZString([MinLength(1)])),
    ("tenantId", ZString([UuidFormat])),
    ("roleId", ZString([UuidFormat]))])

  const LoginAuthSchema: Schema := ZObject([
    ("email", ZString([EmailFormat])),
    ("password", ZString([MinLength(1)]))])

  const AccessTokenSchema: Schema := ZObject([("accessToken", ZString([]))])

  const RefreshTokenSchema: Schema := ZObject([("refreshToken", ZString([]))])

  const TokensSchema: Schema := ZObject([("accessToken", ZString([])), ("refreshToken", ZString([]))])

  const AuthResponseUserSchema: Schema := ZObject([
    ("id", ZString([UuidFormat])),
    ("email", ZString([EmailFormat])),
    ("firstName", ZNullable(ZString([]))),
    ("lastName", ZNullable(ZString([]))),
    ("tenantId", ZString([UuidFormat])),
    ("roleId", ZString([UuidFormat]))])

  const AuthResponseSchema: Schema := ZObject([
    ("user", AuthResponseUserSchema),
    ("accessToken", ZString([])),
    ("refreshToken", ZString([]))])

  const UserProfileSchema: Schema := ZObject([
    ("id", ZString([])),
    ("username", ZString([MinLength(1)])),
    ("email", ZNullable(ZString([EmailFormat]))),
    ("firstName", ZNullable(ZString([]))),
    ("lastName", ZNullable(ZString([]))),
    ("passwordHash", ZOptional(ZString([]))),
    ("isActive", ZBoolean),
    ("tenantId", ZString([])),
    ("createdAt", ZDate),
    ("updatedAt", ZDate)])

  const UpdateUserProfileSchema: Schema := ZObject([
    ("firstName", ZOptional(ZString([MinLength(1), MaxLength(50)]))),
    ("lastName", ZOptional(ZString([MinLength(1), MaxLength(50)]))),
    ("passwordHash", ZOptional(ZString([MinLength(1), MaxLength(12)]))),
    ("email", ZOptional(ZString([EmailFormat])))])

  // ---------------------------------------------------------------------
  // Field predicates: the reference reading of each schema
  // ---------------------------------------------------------------------

  /** Field `j` of an object shape is acceptable in `m`: present and accepted
      by its schema, or absent and optional. */
  predicate FieldOk(parent: Schema, j: nat, m: map<string, Json>, isEmail: string -> bool)
    requires parent.ZObject? && j < |parent.shape|
  {
    var (key, s) := parent.shape[j];
    if key in m then Parse(s, m[key], isEmail).Some? else IsOptional(s)
  }

  /** Every field from `i` on is acceptable. */
  predicate AllFieldsOk(parent: Schema, i: nat, m: map<string, Json>, isEmail: string -> bool)
    requires parent.ZObject? && i <= |parent.shape|
    decreases |parent.shape| - i
  {
    i == |parent.shape| || (FieldOk(parent, i, m, isEmail) && AllFieldsOk(parent, i + 1, m, isEmail))
  }

  /** An object is accepted exactly when each of its fields is. */
  lemma {:induction false} ParseShapeAccepts(parent: Schema, i: nat, m: map<string, Json>, isEmail: string -> bool)
    requires parent.ZObject? && i <= |parent.shape|
    ensures ParseShape(parent, i, m, isEmail).Some? <==> AllFieldsOk(parent, i, m, isEmail)
    decreases |parent.shape| - i
  {
    if i < |parent.shape| {
      ParseShapeAccepts(parent, i + 1, m, isEmail);
    }
  }

  predicate StringAt(m: map<string, Json>, key: string) {
    key in m && m[key].JStr?
  }

  predicate NullableStringAt(m: map<string, Json>, key: string) {
    key in m && (m[key].JNull? || m[key].JStr?)
  }

  /** When the string at `key` is present, its length is within `lo..hi`. */
  predicate OptionalBoundedAt(m: map<string, Json>, key: string, lo: nat, hi: nat) {
    key in m ==> m[key].JStr? && lo <= |m[key].s| <= hi
  }

  /** A register body is accepted exactly when it has an email, a password of
      at least 6 characters, non-empty first and last names, and UUID tenant
      and role ids. */
  lemma RegisterSchemaAccepts(m: map<string, Json>, isEmail: string -> bool)
    ensures Parse(RegisterAuthSchema, JObj(m), isEmail).Some? <==>
      && StringAt(m, "email") && isEmail(m["email"].s)
      && StringAt(m, "password") && |m["password"].s| >= 6
      && StringAt(m, "firstName") && |m["firstName"].s| >= 1
      && StringAt(m, "lastName") && |m["lastName"].s| >= 1
      && StringAt(m, "tenantId") && IsUuid(m["tenantId"].s)
      && StringAt(m, "roleId") && IsUuid(m["roleId"].s)
  {
    var s := RegisterAuthSchema;
    ParseShapeAccepts(s, 0, m, isEmail);
    assert AllFieldsOk(s, 0, m, isEmail) <==> FieldOk(s, 0, m, isEmail) && AllFieldsOk(s, 1, m, isEmail);
    assert AllFieldsOk(s, 1, m, isEmail) <==> FieldOk(s, 1, m, isEmail) && AllFieldsOk(s, 2, m, isEmail);
    assert AllFieldsOk(s, 2, m, isEmail) <==> FieldOk(s, 2, m, isEmail) && AllFieldsOk(s, 3, m, isEmail);
    assert AllFieldsOk(s, 3, m, isEmail) <==> FieldOk(s, 3, m, isEmail) && AllFieldsOk(s, 4, m, isEmail);
    assert AllFieldsOk(s, 4, m, isEmail) <==> FieldOk(s, 4, m, isEmail) && AllFieldsOk(s, 5, m, isEmail);
    assert AllFieldsOk(s, 5, m, isEmail) <==> FieldOk(s, 5, m, isEmail) && AllFieldsOk(s, 6, m, isEmail);
    assert AllFieldsOk(s, 6, m, isEmail);
    FieldOkOneRule(s, 0, m, isEmail, "email", EmailFormat);
    FieldOkOneRule(s, 1, m, isEmail, "password", MinLength(6));
    FieldOkOneRule(s, 2, m, isEmail, "firstName", MinLength(1));
    FieldOkOneRule(s, 3, m, isEmail, "lastName", MinLength(1));
    FieldOkOneRule(s, 4, m, isEmail, "tenantId", UuidFormat);
    FieldOkOneRule(s, 5, m, isEmail, "roleId", UuidFormat);
  }

  /** A login body needs only an email and a non-empty password. */
  lemma LoginSchemaAccepts(m: map<string, Json>, isEmail: string -> bool)
    ensures Parse(LoginAuthSchema, JObj(m), isEmail).Some? <==>
      && StringAt(m, "email") && isEmail(m["email"].s)
      && StringAt(m, "password") && |m["password"].s| >= 1
  {
    var s := LoginAuthSchema;
    ParseShapeAccepts(s, 0, m, isEmail);
    assert AllFieldsOk(s, 0, m, isEmail) <==> FieldOk(s, 0, m, isEmail) && AllFieldsOk(s, 1, m, isEmail);
    assert AllFieldsOk(s, 1, m, isEmail) <==> FieldOk(s, 1, m, isEmail) && AllFieldsOk(s, 2, m, isEmail);
    assert AllFieldsOk(s, 2, m, isEmail);
    if "email" in m && m["email"].JStr? { RulesHoldOne(EmailFormat, m["email"].s, isEmail); }
    if "password" in m && m["password"].JStr? { RulesHoldOne(MinLength(1), m["password"].s, isEmail); }
  }

  /** Every field of the profile update is optional, so `{}` is a valid update,
      and each present field must meet its bounds: first and last name 1 to 50
      characters, password hash 1 to 12, email in email form. */
  lemma UpdateProfileSchemaAccepts(m: map<string, Json>, isEmail: string -> bool)
    ensures Parse(UpdateUserProfileSchema, JObj(map[]), isEmail) == Some(JObj(map[]))
    ensures Parse(UpdateUserProfileSchema, JObj(m), isEmail).Some? <==>
      && OptionalBoundedAt(m, "firstName", 1, 50)
      && OptionalBoundedAt(m, "lastName", 1, 50)
      && OptionalBoundedAt(m, "passwordHash", 1, 12)
      && ("email" in m ==> m["email"].JStr? && isEmail(m["email"].s))
  {
    var s := UpdateUserProfileSchema;
    ParseShapeAccepts(s, 0, m, isEmail);
    assert AllFieldsOk(s, 0, m, isEmail) <==> FieldOk(s, 0, m, isEmail) && AllFieldsOk(s, 1, m, isEmail);
    assert AllFieldsOk(s, 1, m, isEmail) <==> FieldOk(s, 1, m, isEmail) && AllFieldsOk(s, 2, m, isEmail);
    assert AllFieldsOk(s, 2, m, isEmail) <==> FieldOk(s, 2, m, isEmail) && AllFieldsOk(s, 3, m, isEmail);
    assert AllFieldsOk(s, 3, m, isEmail) <==> FieldOk(s, 3, m, isEmail) && AllFieldsOk(s, 4, m, isEmail);
    assert AllFieldsOk(s, 4, m, isEmail);
    FieldOkOptionalBounded(s, 0, m, isEmail, "firstName", 1, 50);
    FieldOkOptionalBounded(s, 1, m, isEmail, "lastName", 1, 50);
    FieldOkOptionalBounded(s, 2, m, isEmail, "passwordHash", 1, 12);
    assert FieldOk(s, 3, m, isEmail) <==> ("email" in m ==> m["email"].JStr? && isEmail(m["email"].s)) by {
      if "email" in m && m["email"].JStr? { RulesHoldOne(EmailFormat, m["email"].s, isEmail); }
    }
    assert ParseShape(s, 4, map[], isEmail) == Some(JObj(map[]));
    assert ParseShape(s, 3, map[], isEmail) == Some(JObj(map[]));
    assert ParseShape(s, 2, map[], isEmail) == Some(JObj(map[]));
    assert ParseShape(s, 1, map[], isEmail) == Some(JObj(map[]));
  }

  /** An optional string field bounded in length is acceptable exactly when,
      if present, it is a string within the bounds. */
  lemma FieldOkOptionalBounded(parent: Schema, j: nat, m: map<string, Json>, isEmail: string -> bool, key: string, lo: nat, hi: nat)
    requires parent.ZObject? && j < |parent.shape|
    requires parent.shape[j] == (key, ZOptional(ZString([MinLength(lo), MaxLength(hi)])))
    ensures FieldOk(parent, j, m, isEmail) <==> OptionalBoundedAt(m, key, lo, hi)
  {
    if key in m {
      var inner := ZString([MinLength(lo), MaxLength(hi)]);
      assert Parse(ZOptional(inner), m[key], isEmail) == Parse(inner, m[key], isEmail);
      if m[key].JStr? {
        RulesHoldTwo(MinLength(lo), MaxLength(hi), m[key].s, isEmail);
      }
    }
  }

  /** The first five fields of a profile: the id, a non-empty username, an
      email that is null or in email form, nullable names. */
  lemma UserProfileHead(m: map<string, Json>, isEmail: string -> bool)
    ensures AllFieldsOk(UserProfileSchema, 0, m, isEmail) <==>
      && StringAt(m, "id")
      && StringAt(m, "username") && |m["username"].s| >= 1
      && NullableStringAt(m, "email") && (m["email"].JStr? ==> isEmail(m["email"].s))
      && NullableStringAt(m, "firstName") && NullableStringAt(m, "lastName")
      && AllFieldsOk(UserProfileSchema, 5, m, isEmail)
  {
    var s := UserProfileSchema;
    RulesHoldNone(isEmail);
    assert AllFieldsOk(s, 0, m, isEmail) <==> FieldOk(s, 0, m, isEmail) && AllFieldsOk(s, 1, m, isEmail);
    assert AllFieldsOk(s, 1, m, isEmail) <==> FieldOk(s, 1, m, isEmail) && AllFieldsOk(s, 2, m, isEmail);
    assert AllFieldsOk(s, 2, m, isEmail) <==> FieldOk(s, 2, m, isEmail) && AllFieldsOk(s, 3, m, isEmail);
    assert AllFieldsOk(s, 3, m, isEmail) <==> FieldOk(s, 3, m, isEmail) && AllFieldsOk(s, 4, m, isEmail);
    assert AllFieldsOk(s, 4, m, isEmail) <==> FieldOk(s, 4, m, isEmail) && AllFieldsOk(s, 5, m, isEmail);
    FieldOkOneRule(s, 1, m, isEmail, "username", MinLength(1));
    assert FieldOk(s, 0, m, isEmail) <==> StringAt(m, "id");
    assert FieldOk(s, 2, m, isEmail) <==> NullableStringAt(m, "email") && (m["email"].JStr? ==> isEmail(m["email"].s)) by {
      if "email" in m && m["email"].JStr? { RulesHoldOne(EmailFormat, m["email"].s, isEmail); }
    }
    assert FieldOk(s, 3, m, isEmail) <==> NullableStringAt(m, "firstName");
    assert FieldOk(s, 4, m, isEmail) <==> NullableStringAt(m, "lastName");
  }

  /** A profile needs a non-empty username; its email may be null, and a
      present email must be in email form. */
  lemma UserProfileSchemaAccepts(m: map<string, Json>, isEmail: string -> bool)
    ensures Parse(UserProfileSchema, JObj(m), isEmail).Some? <==>
      && StringAt(m, "id")
      && StringAt(m, "username") && |m["username"].s| >= 1
      && NullableStringAt(m, "email") && (m["email"].JStr? ==> isEmail(m["email"].s))
      && NullableStringAt(m, "firstName") && NullableStringAt(m, "lastName")
      && ("passwordHash" in m ==> m["passwordHash"].JStr?)
      && "isActive" in m && m["isActive"].JBool?
      && StringAt(m, "tenantId")
      && "createdAt" in m && m["createdAt"].JDate?
      && "updatedAt" in m && m["updatedAt"].JDate?
  {
    ParseShapeAccepts(UserProfileSchema, 0, m, isEmail);
    UserProfileHead(m, isEmail);
    UserProfileTail(m, isEmail);
  }

  /** The last five fields of a profile: an optional password hash, the
      active flag, the tenant and the two timestamps. */
  lemma UserProfileTail(m: map<string, Json>, isEmail: string -> bool)
    ensures AllFieldsOk(UserProfileSchema, 5, m, isEmail) <==>
      && ("passwordHash" in m ==> m["passwordHash"].JStr?)
      && "isActive" in m && m["isActive"].JBool?
      && StringAt(m, "tenantId")
      && "createdAt" in m && m["createdAt"].JDate?
      && "updatedAt" in m && m["updatedAt"].JDate?
  {
    var s := UserProfileSchema;
    RulesHoldNone(isEmail);
    assert AllFieldsOk(s, 5, m, isEmail) <==> FieldOk(s, 5, m, isEmail) && AllFieldsOk(s, 6, m, isEmail);
    assert AllFieldsOk(s, 6, m, isEmail) <==> FieldOk(s, 6, m, isEmail) && AllFieldsOk(s, 7, m, isEmail);
    assert AllFieldsOk(s, 7, m, isEmail) <==> FieldOk(s, 7, m, isEmail) && AllFieldsOk(s, 8, m, isEmail);
    assert AllFieldsOk(s, 8, m, isEmail) <==> FieldOk(s, 8, m, isEmail) && AllFieldsOk(s, 9, m, isEmail);
    assert AllFieldsOk(s, 9, m, isEmail) <==> FieldOk(s, 9, m, isEmail) && AllFieldsOk(s, 10, m, isEmail);
    assert AllFieldsOk(s, 10, m, isEmail);
    assert FieldOk(s, 5, m, isEmail) <==> ("passwordHash" in m ==> m["passwordHash"].JStr?);
    assert FieldOk(s, 7, m, isEmail) <==> StringAt(m, "tenantId");
  }

  /** A string field with a single rule is acceptable exactly when it is a
      string that meets the rule. */
  lemma FieldOkOneRule(parent: Schema, j: nat, m: map<string, Json>, isEmail: string -> bool, key: string, r: StringRule)
    requires parent.ZObject? && j < |parent.shape| && parent.shape[j] == (key, ZString([r]))
    ensures FieldOk(parent, j, m, isEmail) <==> StringAt(m, key) && RuleHolds(r, m[key].s, isEmail)
  {
    if key in m && m[key].JStr? {
      RulesHoldOne(r, m[key].s, isEmail);
    }
  }

  /** The user object of an auth response: UUID ids, an email, nullable names. */
  lemma AuthResponseUserAccepts(user: map<string, Json>, isEmail: string -> bool)
    ensures AllFieldsOk(AuthResponseUserSchema, 0, user, isEmail) <==>
      && StringAt(user, "id") && IsUuid(user["id"].s)
      && StringAt(user, "email") && isEmail(user["email"].s)
      && NullableStringAt(user, "firstName") && NullableStringAt(user, "lastName")
      && StringAt(user, "tenantId") && IsUuid(user["tenantId"].s)
      && StringAt(user, "roleId") && IsUuid(user["roleId"].s)
  {
    var u := AuthResponseUserSchema;
    RulesHoldNone(isEmail);
    assert AllFieldsOk(u, 0, user, isEmail) <==> FieldOk(u, 0, user, isEmail) && AllFieldsOk(u, 1, user, isEmail);
    assert AllFieldsOk(u, 1, user, isEmail) <==> FieldOk(u, 1, user, isEmail) && AllFieldsOk(u, 2, user, isEmail);
    assert AllFieldsOk(u, 2, user, isEmail) <==> FieldOk(u, 2, user, isEmail) && AllFieldsOk(u, 3, user, isEmail);
    assert AllFieldsOk(u, 3, user, isEmail) <==> FieldOk(u, 3, user, isEmail) && AllFieldsOk(u, 4, user, isEmail);
    assert AllFieldsOk(u, 4, user, isEmail) <==> FieldOk(u, 4, user, isEmail) && AllFieldsOk(u, 5, user, isEmail);
    assert AllFieldsOk(u, 5, user, isEmail) <==> FieldOk(u, 5, user, isEmail) && AllFieldsOk(u, 6, user, isEmail);
    assert AllFieldsOk(u, 6, user, isEmail);
    FieldOkOneRule(u, 0, user, isEmail, "id", UuidFormat);
    FieldOkOneRule(u, 1, user, isEmail, "email", EmailFormat);
    FieldOkOneRule(u, 4, user, isEmail, "tenantId", UuidFormat);
    FieldOkOneRule(u, 5, user, isEmail, "roleId", UuidFormat);
    assert FieldOk(u, 2, user, isEmail) <==> NullableStringAt(user, "firstName");
    assert FieldOk(u, 3, user, isEmail) <==> NullableStringAt(user, "lastName");
  }

  /** In an auth response the names may be null, but the ids must be UUIDs and
      both tokens must be strings. */
  lemma AuthResponseSchemaAccepts(user: map<string, Json>, m: map<string, Json>, isEmail: string -> bool)
    requires "user" in m && m["user"] == JObj(user)
    ensures Parse(AuthResponseSchema, JObj(m), isEmail).Some? <==>
      && StringAt(user, "id") && IsUuid(user["id"].s)
      && StringAt(user, "email") && isEmail(user["email"].s)
      && NullableStringAt(user, "firstName") && NullableStringAt(user, "lastName")
      && StringAt(user, "tenantId") && IsUuid(user["tenantId"].s)
      && StringAt(user, "roleId") && IsUuid(user["roleId"].s)
      && StringAt(m, "accessToken") && StringAt(m, "refreshToken")
  {
    var s := AuthResponseSchema;
    var u := AuthResponseUserSchema;
    RulesHoldNone(isEmail);
    ParseShapeAccepts(s, 0, m, isEmail);
    ParseShapeAccepts(u, 0, user, isEmail);
    AuthResponseUserAccepts(user, isEmail);
    assert AllFieldsOk(s, 0, m, isEmail) <==> FieldOk(s, 0, m, isEmail) && AllFieldsOk(s, 1, m, isEmail);
    assert AllFieldsOk(s, 1, m, isEmail) <==> FieldOk(s, 1, m, isEmail) && AllFieldsOk(s, 2, m, isEmail);
    assert AllFieldsOk(s, 2, m, isEmail) <==> FieldOk(s, 2, m, isEmail) && AllFieldsOk(s, 3, m, isEmail);
    assert AllFieldsOk(s, 3, m, isEmail);
    assert s.shape[0] == ("user", u);
    assert Parse(u, JObj(user), isEmail) == ParseShape(u, 0, user, isEmail);
    assert FieldOk(s, 0, m, isEmail) <==> ParseShape(u, 0, user, isEmail).Some?;
    assert FieldOk(s, 1, m, isEmail) <==> StringAt(m, "accessToken");
    assert FieldOk(s, 2, m, isEmail) <==> StringAt(m, "refreshToken");
  }

  /** Unknown keys are dropped, and the known ones come back as given. */
  lemma LoginSchemaStrips(m: map<string, Json>, isEmail: string -> bool)
    requires Parse(LoginAuthSchema, JObj(m), isEmail).Some?
    ensures Parse(LoginAuthSchema, JObj(m), isEmail)
            == Some(JObj(map["email" := m["email"], "password" := m["password"]]))
  {
    LoginSchemaAccepts(m, isEmail);
    var s := LoginAuthSchema;
    RulesHoldOne(EmailFormat, m["email"].s, isEmail);
    RulesHoldOne(MinLength(1), m["password"].s, isEmail);
    assert Parse(ZString([EmailFormat]), m["email"], isEmail) == Some(m["email"]);
    assert Parse(ZString([MinLength(1)]), m["password"], isEmail) == Some(m["password"]);
    assert ParseShape(s, 2, m, isEmail) == Some(JObj(map[]));
    assert ParseShape(s, 1, m, isEmail) == Some(JObj(map["password" := m["password"]]));
    assert ParseShape(s, 0, m, isEmail) == Some(JObj(map["password" := m["password"]]["email" := m["email"]]));
    assert map["password" := m["password"]]["email" := m["email"]] == map["email" := m["email"], "password" := m["password"]];
  }

  /** A string of the 8-4-4-4-12 form is a UUID; one of another length is not. */
  lemma UuidExamples()
    ensures IsUuid("123e4567-e89b-12d3-a456-426614174000")
    ensures !IsUuid("123e4567e89b12d3a456426614174000")
  {
  }

  // ---------------------------------------------------------------------
  // ZodValidationPipe
  // ---------------------------------------------------------------------

  /** `ZodValidationPipe.transform`. `safeParse` reports rather than throws, so
      the catch clause is never entered and a rejection is always the plain
      "Validation error". */
  function Transform(schema: Schema, value: Json, isEmail: string -> bool): (r: Result<Json>)
    ensures r.Ok? <==> Parse(schema, value, isEmail).Some?
    ensures r.Ok? ==> r.value == Parse(schema, value, isEmail).value
    ensures r.Err? ==> r.error == BadRequest("Validation error")
  {
    match Parse(schema, value, isEmail)
    case Some(data) => Ok(data)
    case None => Err(BadRequest("Validation error"))
  }

  /** The keys `shape[i..]` name. */
  ghost predicate ShapeHasKey(parent: Schema, i: nat, key: string)
    requires parent.ZObject?
  {
    exists j :: i <= j < |parent.shape| && parent.shape[j].0 == key
  }

  /** An accepted object keeps only keys its shape names: unknown keys are
      stripped, however the input was padded. */
  lemma {:induction false} ParseShapeStripsUnknown(parent: Schema, i: nat, m: map<string, Json>, isEmail: string -> bool)
    requires parent.ZObject? && i <= |parent.shape|
    requires ParseShape(parent, i, m, isEmail).Some?
    ensures forall key :: key in ParseShape(parent, i, m, isEmail).value.fields ==> ShapeHasKey(parent, i, key)
    decreases |parent.shape| - i
  {
    if i < |parent.shape| {
      ParseShapeStripsUnknown(parent, i + 1, m, isEmail);
      var rest := ParseShape(parent, i + 1, m, isEmail).value;
      forall key | key in ParseShape(parent, i, m, isEmail).value.fields
        ensures ShapeHasKey(parent, i, key)
      {
        if key == parent.shape[i].0 {
          assert parent.shape[i].0 == key;
        } else {
          assert key in rest.fields;
          var j :| i + 1 <= j < |parent.shape| && parent.shape[j].0 == key;
          assert i <= j;
        }
      }
    }
  }

  /** A key of the shape that is present in the input and accepted is in the output. */
  lemma {:induction false} ParseShapeKeepsKnown(parent: Schema, i: nat, m: map<string, Json>, isEmail: string -> bool, j: nat)
    requires parent.ZObject? && i <= j < |parent.shape|
    requires ParseShape(parent, i, m, isEmail).Some?
    requires parent.shape[j].0 in m
    ensures parent.shape[j].0 in ParseShape(parent, i, m, isEmail).value.fields
    decreases |parent.shape| - i
  {
    if i < j {
      ParseShapeKeepsKnown(parent, i + 1, m, isEmail, j);
    }
  }
}
