/** The user and tenant store behind authentication. Users are unique by id
    and by email; lookups return the unique match or nothing. */
module UserAuthRepository {
  import opened Common

  datatype User = User(
    id: string,
    email: string,
    username: Option<string>,
    firstName: Option<string>,
    lastName: Option<string>,
    passwordHash: string,
    tenantId: string,
    roleId: string,
    isActive: bool,
    createdAt: int)

  datatype Tenant = Tenant(id: string, name: string)

  datatype Role = Role(id: string, name: string)

  /** The argument of `createUser`. */
  datatype NewUser = NewUser(
    email: string, firstName: string, lastName: string,
    passwordHash: string, tenantId: string, roleId: string)

  /** The argument of `updateUser`: an absent field is not written. */
  datatype UserChanges = UserChanges(
    email: Option<string>, firstName: Option<string>,
    lastName: Option<string>, passwordHash: Option<string>)

  /** No two users share an id, and no two share an email. */
  ghost predicate UniqueUsers(users: seq<User>) {
    forall i, j :: 0 <= i < j < |users| ==> users[i].id != users[j].id && users[i].email != users[j].email
  }

  ghost predicate UniqueIds(tenants: seq<Tenant>) {
    forall i, j :: 0 <= i < j < |tenants| ==> tenants[i].id != tenants[j].id
  }

  ghost predicate UniqueRoleIds(roles: seq<Role>) {
    forall i, j :: 0 <= i < j < |roles| ==> roles[i].id != roles[j].id
  }

  /** `findByEmail`. */
  function FindByEmail(users: seq<User>, email: string): (r: Option<User>)
    ensures r.Some? ==> r.value in users && r.value.email == email
    ensures r.None? <==> forall u :: u in users ==> u.email != email
  {
    if users == [] then None
    else if users[0].email == email then Some(users[0])
    else FindByEmail(users[1..], email)
  }

  /** `findById`. */
  function FindById(users: seq<User>, id: string): (r: Option<User>)
    ensures r.Some? ==> r.value in users && r.value.id == id
    ensures r.None? <==> forall u :: u in users ==> u.id != id
  {
    if users == [] then None
    else if users[0].id == id then Some(users[0])
    else FindById(users[1..], id)
  }

  /** With unique emails the found user is THE user with that email. */
  lemma FindByEmailUnique(users: seq<User>, email: string, u: User)
    requires UniqueUsers(users) && u in users && u.email == email
    ensures FindByEmail(users, email) == Some(u)
  {
    var r := FindByEmail(users, email).value;
    var i :| 0 <= i < |users| && users[i] == r;
    var j :| 0 <= j < |users| && users[j] == u;
    assert i == j;
  }

  /** With unique ids the found user is THE user with that id. */
  lemma FindByIdUnique(users: seq<User>, id: string, u: User)
    requires UniqueUsers(users) && u in users && u.id == id
    ensures FindById(users, id) == Some(u)
  {
    var r := FindById(users, id).value;
    var i :| 0 <= i < |users| && users[i] == r;
    var j :| 0 <= j < |users| && users[j] == u;
    assert i == j;
  }

  /** `findTenantById`. */
  function FindTenantById(tenants: seq<Tenant>, id: string): (r: Option<Tenant>)
    ensures r.Some? ==> r.value in tenants && r.value.id == id
    ensures r.None? <==> forall t :: t in tenants ==> t.id != id
  {
    if tenants == [] then None
    else if tenants[0].id == id then Some(tenants[0])
    else FindTenantById(tenants[1..], id)
  }

  /** `findRoleById`. */
  function FindRoleById(roles: seq<Role>, id: string): (r: Option<Role>)
    ensures r.Some? ==> r.value in roles && r.value.id == id
    ensures r.None? <==> forall t :: t in roles ==> t.id != id
  {
    if roles == [] then None
    else if roles[0].id == id then Some(roles[0])
    else FindRoleById(roles[1..], id)
  }

  /** `findAllByTenantId`: exactly the users of that tenant, in store order. */
  function FindAllByTenantId(users: seq<User>, tenantId: string): (r: seq<User>)
    ensures forall u :: u in r <==> u in users && u.tenantId == tenantId
    ensures r == [] <==> forall u :: u in users ==> u.tenantId != tenantId
    ensures |r| <= |users|
  {
    if users == [] then []
    else if users[0].tenantId == tenantId then [users[0]] + FindAllByTenantId(users[1..], tenantId)
    else FindAllByTenantId(users[1..], tenantId)
  }

  /** The row `createUser` stores: the given fields, no username, always active. */
  function CreatedUser(data: NewUser, id: string, createdAt: int): User {
    User(id, data.email, None, Some(data.firstName), Some(data.lastName),
         data.passwordHash, data.tenantId, data.roleId, true, createdAt)
  }

  /** The row `updateUser` leaves: each supplied field overwritten, the rest kept. */
  function UpdatedUser(u: User, data: UserChanges): User {
    u.(email := data.email.GetOr(u.email),
       firstName := if data.firstName.Some? then data.firstName else u.firstName,
       lastName := if data.lastName.Some? then data.lastName else u.lastName,
       passwordHash := data.passwordHash.GetOr(u.passwordHash))
  }

  /** The position of the user with the given id. */
  function IndexOfId(users: seq<User>, id: string): (i: nat)
    requires exists u :: u in users && u.id == id
    ensures i < |users| && users[i].id == id
    ensures forall j :: 0 <= j < i ==> users[j].id != id
  {
    if users[0].id == id then 0
    else
      assert exists u :: u in users[1..] && u.id == id by {
        var u :| u in users && u.id == id;
        assert u != users[0];
      }
      1 + IndexOfId(users[1..], id)
  }

  /** The user table after `updateUser(id, data)`. */
  function UpdateRows(users: seq<User>, id: string, data: UserChanges): seq<User>
    requires exists u :: u in users && u.id == id
  {
    var i := IndexOfId(users, id);
    users[i := UpdatedUser(users[i], data)]
  }

  /** `updateUser` changes only the supplied fields of that id: every other
      field of it and every other user stay as they were. */
  lemma UpdateRowsChangesOnlyTarget(users: seq<User>, id: string, data: UserChanges)
    requires UniqueUsers(users) && exists u :: u in users && u.id == id
    ensures var r := UpdateRows(users, id, data);
      && |r| == |users|
      && (forall j :: 0 <= j < |users| && users[j].id != id ==> r[j] == users[j])
      && (forall j :: 0 <= j < |users| && users[j].id == id ==>
            && r[j].id == id && r[j].username == users[j].username
            && r[j].tenantId == users[j].tenantId && r[j].roleId == users[j].roleId
            && r[j].isActive == users[j].isActive && r[j].createdAt == users[j].createdAt
            && r[j].email == (if data.email.Some? then data.email.value else users[j].email)
            && r[j].passwordHash == (if data.passwordHash.Some? then data.passwordHash.value else users[j].passwordHash)
            && r[j].firstName == (if data.firstName.Some? then data.firstName else users[j].firstName)
            && r[j].lastName == (if data.lastName.Some? then data.lastName else users[j].lastName))
  {
    var i := IndexOfId(users, id);
    assert forall j :: 0 <= j < |users| && users[j].id == id ==> j == i;
  }

  /** The store behind `UserAuthRepository`. */
  class UserAuthRepository {
    var users: seq<User>
    var tenants: seq<Tenant>
    var roles: seq<Role>

    ghost predicate Valid()
      reads this
    {
      UniqueUsers(users) && UniqueIds(tenants) && UniqueRoleIds(roles)
    }

    constructor (tenants: seq<Tenant>, roles: seq<Role>)
      requires UniqueIds(tenants) && UniqueRoleIds(roles)
      ensures Valid() && users == [] && this.tenants == tenants && this.roles == roles
    {
      users := [];
      this.tenants := tenants;
      this.roles := roles;
    }

    /** `createUser`: appends the new user with `isActive` set. The id and the
        creation time are the database's; the unique constraints on id and
        email are its too, so both must be free. */
    method CreateUser(data: NewUser, id: string, createdAt: int) returns (u: User)
      requires Valid()
      requires forall x :: x in users ==> x.id != id && x.email != data.email
      modifies this
      ensures Valid()
      ensures u == CreatedUser(data, id, createdAt) && u.isActive
      ensures users == old(users) + [u]
      ensures tenants == old(tenants) && roles == old(roles)
    {
      u := CreatedUser(data, id, createdAt);
      assert forall k :: 0 <= k < |users| ==> users[k] in users;
      users := users + [u];
    }

    /** `updateUser`: the user with that id must exist. A new email must not
        belong to another user. */
    method UpdateUser(id: string, data: UserChanges) returns (u: User)
      requires Valid() && exists x :: x in users && x.id == id
      requires data.email.Some? ==> forall x :: x in users && x.id != id ==> x.email != data.email.value
      modifies this
      ensures Valid()
      ensures users == UpdateRows(old(users), id, data)
      ensures u.id == id && u in users
      ensures tenants == old(tenants) && roles == old(roles)
    {
      UpdateRowsChangesOnlyTarget(users, id, data);
      var i := IndexOfId(users, id);
      u := UpdatedUser(users[i], data);
      ghost var before := users;
      users := users[i := u];
      assert forall k :: 0 <= k < |before| ==> before[k] in before;
      assert forall a, b :: 0 <= a < b < |users| ==> users[a].id != users[b].id && users[a].email != users[b].email by {
        forall a, b | 0 <= a < b < |users| ensures users[a].id != users[b].id && users[a].email != users[b].email {
          if a != i && b != i {
            assert users[a] == before[a] && users[b] == before[b];
          } else if a == i {
            assert users[b] == before[b] && before[b].id != id;
          } else {
            assert users[a] == before[a] && before[a].id != id;
          }
        }
      }
    }
  }
}
