/** The users page's derived views: the four KPI counts over the fetched
    list, the full-name and status cells, and the column definitions. */
module UserViews {
  import opened Common
  import opened JsStrings
  import opened DataTable

  /** The fields of a `UserProfileDto` the views read. */
  datatype UserRow = UserRow(
    username: string, firstName: Option<string>, lastName: Option<string>,
    email: Option<string>, isActive: bool)

  // ---------------------------------------------------------------------
  // UserKPIs
  // ---------------------------------------------------------------------

  function CountActive(users: seq<UserRow>): (n: nat)
    ensures n <= |users|
  {
    if users == [] then 0 else (if users[0].isActive then 1 else 0) + CountActive(users[1..])
  }

  function CountInactive(users: seq<UserRow>): (n: nat)
    ensures n <= |users|
  {
    if users == [] then 0 else (if !users[0].isActive then 1 else 0) + CountInactive(users[1..])
  }

  /** `u.email?.includes("@")`: a missing email does not count. */
  predicate HasEmail(u: UserRow) {
    u.email.Some? && '@' in u.email.value
  }

  function CountEmail(users: seq<UserRow>): (n: nat)
    ensures n <= |users|
  {
    if users == [] then 0 else (if HasEmail(users[0]) then 1 else 0) + CountEmail(users[1..])
  }

  datatype Kpis = Kpis(totalUsers: nat, activeUsers: nat, inactiveUsers: nat, emailUsers: nat)

  /** The counts; `data` is `None` until the query returns, and every count is then 0. */
  function UserKpis(data: Option<seq<UserRow>>): (k: Kpis)
    ensures data.None? ==> k == Kpis(0, 0, 0, 0)
    ensures data.Some? ==> k.totalUsers == |data.value|
    ensures k.activeUsers <= k.totalUsers && k.inactiveUsers <= k.totalUsers && k.emailUsers <= k.totalUsers
  {
    match data
    case None => Kpis(0, 0, 0, 0)
    case Some(users) => Kpis(|users|, CountActive(users), CountInactive(users), CountEmail(users))
  }

  lemma {:induction false} ActivePlusInactive(users: seq<UserRow>)
    ensures CountActive(users) + CountInactive(users) == |users|
  {
    if users != [] {
      ActivePlusInactive(users[1..]);
    }
  }

  /** Active and inactive users together are all the users. */
  lemma KpisPartition(data: Option<seq<UserRow>>)
    ensures UserKpis(data).activeUsers + UserKpis(data).inactiveUsers == UserKpis(data).totalUsers
  {
    if data.Some? {
      ActivePlusInactive(data.value);
    }
  }

  lemma {:induction false} CountActiveAppend(a: seq<UserRow>, b: seq<UserRow>)
    ensures CountActive(a + b) == CountActive(a) + CountActive(b)
  {
    if a == [] {
      assert a + b == b;
    } else {
      assert (a + b)[0] == a[0];
      assert (a + b)[1..] == a[1..] + b;
      CountActiveAppend(a[1..], b);
    }
  }

  lemma {:induction false} CountEmailAppend(a: seq<UserRow>, b: seq<UserRow>)
    ensures CountEmail(a + b) == CountEmail(a) + CountEmail(b)
  {
    if a == [] {
      assert a + b == b;
    } else {
      assert (a + b)[0] == a[0];
      assert (a + b)[1..] == a[1..] + b;
      CountEmailAppend(a[1..], b);
    }
  }

  /** Each count is exactly the number of users with the property: a new
      user raises the total by one, and the active, inactive and email
      counts each by one exactly when the user has that property. */
  lemma KpisAddUser(users: seq<UserRow>, u: UserRow)
    ensures UserKpis(Some(users + [u])).totalUsers == UserKpis(Some(users)).totalUsers + 1
    ensures UserKpis(Some(users + [u])).activeUsers == UserKpis(Some(users)).activeUsers + (if u.isActive then 1 else 0)
    ensures UserKpis(Some(users + [u])).inactiveUsers == UserKpis(Some(users)).inactiveUsers + (if u.isActive then 0 else 1)
    ensures UserKpis(Some(users + [u])).emailUsers == UserKpis(Some(users)).emailUsers + (if HasEmail(u) then 1 else 0)
  {
    CountActiveAppend(users, [u]);
    CountEmailAppend(users, [u]);
    assert [u][1..] == [];
    ActivePlusInactive(users);
    ActivePlusInactive(users + [u]);
  }

  // ---------------------------------------------------------------------
  // Cells
  // ---------------------------------------------------------------------

  function NameOrEmpty(s: Option<string>): string {
    if s.Some? then s.value else ""
  }

  /** `FullNameCell`: the trimmed "first last", or "No name" when that is empty. */
  function FullName(u: UserRow): (r: string)
    ensures r != ""
  {
    var full := Trim(NameOrEmpty(u.firstName) + " " + NameOrEmpty(u.lastName));
    if full == "" then "No name" else full
  }

  /** With a single name part, the cell is that part trimmed; with none, "No name". */
  lemma FullNameParts(u: UserRow)
    ensures u.lastName.None? && u.firstName.Some? && Trim(u.firstName.value) != "" ==>
      FullName(u) == Trim(u.firstName.value)
    ensures u.firstName.None? && u.lastName.Some? && Trim(u.lastName.value) != "" ==>
      FullName(u) == Trim(u.lastName.value)
    ensures u.firstName.None? && u.lastName.None? ==> FullName(u) == "No name"
  {
    if u.lastName.None? && u.firstName.Some? {
      var f := u.firstName.value;
      assert f + " " + "" == f + [' '];
      TrimAppendWhitespace(f, ' ');
    }
    if u.firstName.None? && u.lastName.Some? {
      var l := u.lastName.value;
      assert "" + " " + l == [' '] + l;
      TrimPrependWhitespace(' ', l);
    }
    if u.firstName.None? && u.lastName.None? {
      assert "" + " " + "" == [' '];
      TrimEmptyIff([' ']);
    }
  }

  datatype StatusBadge = StatusBadge(status: string, caption: string)

  /** `StatusCell`. */
  function StatusOf(u: UserRow): (r: StatusBadge)
    ensures r.caption == "Activo" <==> u.isActive
    ensures r.status == "healthy" <==> u.isActive
    ensures !u.isActive ==> r == StatusBadge("inactive", "Inactivo")
  {
    if u.isActive then StatusBadge("healthy", "Activo") else StatusBadge("inactive", "Inactivo")
  }

  // ---------------------------------------------------------------------
  // Columns
  // ---------------------------------------------------------------------

  /** `userColumns`; flags not set take the library default, which is on. */
  const UserColumns: seq<Column> := [
    Column("select", false, false),
    Column("username", true, true),
    Column("fullName", true, true),
    Column("email", true, true),
    Column("status", true, true),
    Column("createdAt", true, true)
  ]

  lemma {:induction false} AllHideable(columns: seq<Column>)
    requires forall k :: 0 <= k < |columns| ==> columns[k].enableHiding
    ensures HideableColumns(columns) == columns
  {
    if columns != [] {
      AllHideable(columns[1..]);
    }
  }

  lemma UserColumnsHideable()
    ensures HideableColumns(UserColumns) == UserColumns[1..]
  {
    var rest := UserColumns[1..];
    assert forall k :: 0 <= k < |rest| ==> rest[k].enableHiding;
    AllHideable(rest);
    assert !UserColumns[0].enableHiding;
  }

  /** The select column can be neither sorted nor hidden; in the users
      table, the visibility menu lists every other column but the actions. */
  lemma SelectColumnFlags()
    ensures UserColumns[0].id == "select" && !UserColumns[0].enableSorting && !UserColumns[0].enableHiding
    ensures HideableColumns(EnhancedColumns(UserColumns)) == UserColumns[1..]
  {
    ActionColumnNotHideable(UserColumns);
    UserColumnsHideable();
  }
}
