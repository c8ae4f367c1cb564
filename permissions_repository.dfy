/** The `userPermission` table and the repository that reads and writes it.
    A row is keyed by the pair (userId, tableName); the table is a sequence of
    rows, and the repository keeps at most one row per key. */
module PermissionsRepository {
  import opened Common

  /** Breadth of rows a permission covers. */
  datatype Scope = NONE | OWN | ALL

  /** One `userPermission` row with the seven columns the repository selects. */
  datatype PermissionRecord = PermissionRecord(
    userId: string,
    tableName: string,
    canCreate: bool,
    canRead: bool,
    canUpdate: bool,
    canDelete: bool,
    scope: Scope)

  /** The `Partial<...>` argument of `upsert`: an absent field is not written. */
  datatype PermissionPatch = PermissionPatch(
    canCreate: Option<bool>,
    canRead: Option<bool>,
    canUpdate: Option<bool>,
    canDelete: Option<bool>,
    scope: Option<Scope>)

  /** What the database stores in a created row for the columns `create` omits. */
  datatype ColumnDefaults = ColumnDefaults(
    canCreate: bool,
    canRead: bool,
    canUpdate: bool,
    canDelete: bool,
    scope: Scope)

  predicate HasKeyAt(rows: seq<PermissionRecord>, i: int, userId: string, tableName: string)
    requires 0 <= i < |rows|
  {
    rows[i].userId == userId && rows[i].tableName == tableName
  }

  predicate HasKey(rows: seq<PermissionRecord>, userId: string, tableName: string) {
    exists i :: 0 <= i < |rows| && HasKeyAt(rows, i, userId, tableName)
  }

  /** The `@@unique([userId, tableName])` constraint. */
  ghost predicate UniqueKeys(rows: seq<PermissionRecord>) {
    forall i, j :: 0 <= i < j < |rows| ==>
      rows[i].userId != rows[j].userId || rows[i].tableName != rows[j].tableName
  }

  /** The position of the first row at or after `from` with the given key. */
  function KeyIndexFrom(rows: seq<PermissionRecord>, userId: string, tableName: string, from: nat): (r: Option<nat>)
    requires from <= |rows|
    ensures r.Some? ==> from <= r.value < |rows| && HasKeyAt(rows, r.value, userId, tableName)
    ensures r.Some? ==> forall i :: from <= i < r.value ==> !HasKeyAt(rows, i, userId, tableName)
    ensures r.None? ==> forall i :: from <= i < |rows| ==> !HasKeyAt(rows, i, userId, tableName)
    decreases |rows| - from
  {
    if from == |rows| then None
    else if HasKeyAt(rows, from, userId, tableName) then Some(from)
    else KeyIndexFrom(rows, userId, tableName, from + 1)
  }

  /** The position of the row with the given key, if there is one. */
  function KeyIndex(rows: seq<PermissionRecord>, userId: string, tableName: string): (r: Option<nat>)
    ensures r.Some? ==> r.value < |rows| && HasKeyAt(rows, r.value, userId, tableName)
    ensures r.Some? ==> forall i :: 0 <= i < r.value ==> !HasKeyAt(rows, i, userId, tableName)
    ensures r.None? <==> !HasKey(rows, userId, tableName)
  {
    KeyIndexFrom(rows, userId, tableName, 0)
  }

  /** `findManyByUserId`: the rows whose userId matches, in table order. */
  function FindManyByUserId(rows: seq<PermissionRecord>, userId: string): (r: seq<PermissionRecord>)
    ensures forall k :: 0 <= k < |r| ==> r[k].userId == userId
    ensures forall x :: x in r <==> x in rows && x.userId == userId
    ensures |r| <= |rows|
  {
    if rows == [] then []
    else if rows[0].userId == userId then [rows[0]] + FindManyByUserId(rows[1..], userId)
    else FindManyByUserId(rows[1..], userId)
  }

  /** No two rows name the same table. */
  ghost predicate TablesDistinct(rows: seq<PermissionRecord>) {
    forall i, j :: 0 <= i < j < |rows| ==> rows[i].tableName != rows[j].tableName
  }

  /** Under the unique key, one user's rows name pairwise different tables. */
  lemma {:induction false} FindManyDistinctTables(rows: seq<PermissionRecord>, userId: string)
    requires UniqueKeys(rows)
    ensures TablesDistinct(FindManyByUserId(rows, userId))
  {
    if rows != [] {
      var rest := rows[1..];
      UniqueKeysTail(rows);
      FindManyDistinctTables(rest, userId);
      if rows[0].userId == userId {
        var tail := FindManyByUserId(rest, userId);
        HeadTableNotInTail(rows, userId);
        TablesDistinctCons(rows[0], tail);
        assert [rows[0]] + tail == FindManyByUserId(rows, userId);
      } else {
        assert FindManyByUserId(rows, userId) == FindManyByUserId(rest, userId);
      }
    }
  }

  lemma UniqueKeysTail(rows: seq<PermissionRecord>)
    requires rows != [] && UniqueKeys(rows)
    ensures UniqueKeys(rows[1..])
  {
    var rest := rows[1..];
    forall i, j | 0 <= i < j < |rest|
      ensures rest[i].userId != rest[j].userId || rest[i].tableName != rest[j].tableName
    {
      assert rest[i] == rows[i + 1] && rest[j] == rows[j + 1];
    }
  }

  /** No later row of the same user names the first row's table. */
  lemma HeadTableNotInTail(rows: seq<PermissionRecord>, userId: string)
    requires rows != [] && UniqueKeys(rows) && rows[0].userId == userId
    ensures forall x :: x in FindManyByUserId(rows[1..], userId) ==> x.tableName != rows[0].tableName
  {
    var rest := rows[1..];
    forall x | x in FindManyByUserId(rest, userId) ensures x.tableName != rows[0].tableName {
      var j :| 0 <= j < |rest| && rest[j] == x;
      assert rows[j + 1] == x;
    }
  }

  lemma TablesDistinctCons(h: PermissionRecord, tail: seq<PermissionRecord>)
    requires TablesDistinct(tail)
    requires forall x :: x in tail ==> x.tableName != h.tableName
    ensures TablesDistinct([h] + tail)
  {
    var r := [h] + tail;
    forall i, j | 0 <= i < j < |r| ensures r[i].tableName != r[j].tableName {
      assert r[j] == tail[j - 1] && r[j] in tail;
      if i > 0 {
        assert r[i] == tail[i - 1];
      }
    }
  }

  /** The row `create` inserts: the key, the supplied fields, defaults elsewhere. */
  function CreatedRow(userId: string, tableName: string, patch: PermissionPatch, defaults: ColumnDefaults): PermissionRecord {
    PermissionRecord(userId, tableName,
      patch.canCreate.GetOr(defaults.canCreate),
      patch.canRead.GetOr(defaults.canRead),
      patch.canUpdate.GetOr(defaults.canUpdate),
      patch.canDelete.GetOr(defaults.canDelete),
      patch.scope.GetOr(defaults.scope))
  }

  /** The row `update` leaves: each supplied field overwritten, the rest kept. */
  function PatchedRow(row: PermissionRecord, patch: PermissionPatch): PermissionRecord {
    row.(canCreate := patch.canCreate.GetOr(row.canCreate),
         canRead := patch.canRead.GetOr(row.canRead),
         canUpdate := patch.canUpdate.GetOr(row.canUpdate),
         canDelete := patch.canDelete.GetOr(row.canDelete),
         scope := patch.scope.GetOr(row.scope))
  }

  /** The table after `upsert(userId, tableName, patch)`. */
  function UpsertRows(rows: seq<PermissionRecord>, userId: string, tableName: string,
                      patch: PermissionPatch, defaults: ColumnDefaults): seq<PermissionRecord>
  {
    match KeyIndex(rows, userId, tableName)
    case Some(i) => rows[i := PatchedRow(rows[i], patch)]
    case None => rows + [CreatedRow(userId, tableName, patch, defaults)]
  }

  /** The table after `deleteByUserIdTableName(userId, tableName)`. */
  function DeleteRows(rows: seq<PermissionRecord>, userId: string, tableName: string): seq<PermissionRecord>
    requires HasKey(rows, userId, tableName)
  {
    var i := KeyIndex(rows, userId, tableName).value;
    rows[..i] + rows[i + 1..]
  }

  /** On an absent key, `upsert` appends one row holding the key, the supplied
      fields and the column defaults, and leaves every existing row. */
  lemma UpsertAbsentCreates(rows: seq<PermissionRecord>, userId: string, tableName: string,
                            patch: PermissionPatch, defaults: ColumnDefaults)
    requires !HasKey(rows, userId, tableName)
    ensures var r := UpsertRows(rows, userId, tableName, patch, defaults);
      && |r| == |rows| + 1 && r[..|rows|] == rows
      && r[|rows|].userId == userId && r[|rows|].tableName == tableName
      && (patch.canRead.Some? ==> r[|rows|].canRead == patch.canRead.value)
      && (patch.canRead.None? ==> r[|rows|].canRead == defaults.canRead)
      && (patch.canCreate.Some? ==> r[|rows|].canCreate == patch.canCreate.value)
      && (patch.canCreate.None? ==> r[|rows|].canCreate == defaults.canCreate)
      && (patch.canUpdate.Some? ==> r[|rows|].canUpdate == patch.canUpdate.value)
      && (patch.canUpdate.None? ==> r[|rows|].canUpdate == defaults.canUpdate)
      && (patch.canDelete.Some? ==> r[|rows|].canDelete == patch.canDelete.value)
      && (patch.canDelete.None? ==> r[|rows|].canDelete == defaults.canDelete)
      && (patch.scope.Some? ==> r[|rows|].scope == patch.scope.value)
      && (patch.scope.None? ==> r[|rows|].scope == defaults.scope)
  {
    assert KeyIndex(rows, userId, tableName).None?;
  }

  /** On a present key, `upsert` overwrites only the supplied fields of that
      row; its key and unsupplied fields, and every other row, stay as they were. */
  lemma {:induction false} UpsertPresentPatches(rows: seq<PermissionRecord>, userId: string, tableName: string,
                                                patch: PermissionPatch, defaults: ColumnDefaults, i: nat)
    requires UniqueKeys(rows)
    requires i < |rows| && HasKeyAt(rows, i, userId, tableName)
    ensures var r := UpsertRows(rows, userId, tableName, patch, defaults);
      && |r| == |rows|
      && (forall j :: 0 <= j < |rows| && j != i ==> r[j] == rows[j])
      && r[i].userId == userId && r[i].tableName == tableName
      && r[i].canCreate == (if patch.canCreate.Some? then patch.canCreate.value else rows[i].canCreate)
      && r[i].canRead == (if patch.canRead.Some? then patch.canRead.value else rows[i].canRead)
      && r[i].canUpdate == (if patch.canUpdate.Some? then patch.canUpdate.value else rows[i].canUpdate)
      && r[i].canDelete == (if patch.canDelete.Some? then patch.canDelete.value else rows[i].canDelete)
      && r[i].scope == (if patch.scope.Some? then patch.scope.value else rows[i].scope)
  {
    var k := KeyIndex(rows, userId, tableName);
    assert k.Some?;
    assert HasKeyAt(rows, k.value, userId, tableName);
  }

  /** `upsert` keeps the table free of duplicate keys. */
  lemma UpsertKeepsUnique(rows: seq<PermissionRecord>, userId: string, tableName: string,
                          patch: PermissionPatch, defaults: ColumnDefaults)
    requires UniqueKeys(rows)
    ensures UniqueKeys(UpsertRows(rows, userId, tableName, patch, defaults))
  {
    var r := UpsertRows(rows, userId, tableName, patch, defaults);
    match KeyIndex(rows, userId, tableName)
    case Some(i) =>
      forall a, b | 0 <= a < b < |r| ensures r[a].userId != r[b].userId || r[a].tableName != r[b].tableName {
        assert r[a].userId == rows[a].userId && r[a].tableName == rows[a].tableName;
        assert r[b].userId == rows[b].userId && r[b].tableName == rows[b].tableName;
      }
    case None =>
      forall a, b | 0 <= a < b < |r| ensures r[a].userId != r[b].userId || r[a].tableName != r[b].tableName {
        if b == |rows| {
          assert !HasKeyAt(rows, a, userId, tableName);
        } else {
          assert r[a] == rows[a] && r[b] == rows[b];
        }
      }
  }

  /** After `upsert` the key is present. */
  lemma UpsertHasKey(rows: seq<PermissionRecord>, userId: string, tableName: string,
                     patch: PermissionPatch, defaults: ColumnDefaults)
    ensures HasKey(UpsertRows(rows, userId, tableName, patch, defaults), userId, tableName)
  {
    var r := UpsertRows(rows, userId, tableName, patch, defaults);
    match KeyIndex(rows, userId, tableName)
    case Some(i) => assert HasKeyAt(r, i, userId, tableName);
    case None => assert HasKeyAt(r, |rows|, userId, tableName);
  }

  /** Two identical `upsert`s leave the same table as one. */
  lemma UpsertIdempotent(rows: seq<PermissionRecord>, userId: string, tableName: string,
                         patch: PermissionPatch, defaults: ColumnDefaults)
    ensures var once := UpsertRows(rows, userId, tableName, patch, defaults);
      UpsertRows(once, userId, tableName, patch, defaults) == once
  {
    var once := UpsertRows(rows, userId, tableName, patch, defaults);
    match KeyIndex(rows, userId, tableName)
    case Some(i) =>
      assert once == rows[i := PatchedRow(rows[i], patch)];
      forall j | 0 <= j < i ensures !HasKeyAt(once, j, userId, tableName) {
        assert !HasKeyAt(rows, j, userId, tableName);
        assert once[j] == rows[j];
      }
      KeyIndexIs(once, userId, tableName, i);
      PatchTwice(rows[i], patch);
      assert once[i := PatchedRow(once[i], patch)] == once;
    case None =>
      var row := CreatedRow(userId, tableName, patch, defaults);
      assert once == rows + [row];
      forall j | 0 <= j < |rows| ensures !HasKeyAt(once, j, userId, tableName) {
        assert !HasKeyAt(rows, j, userId, tableName);
        assert once[j] == rows[j];
      }
      KeyIndexIs(once, userId, tableName, |rows|);
      PatchCreated(userId, tableName, patch, defaults);
      assert once[|rows| := PatchedRow(once[|rows|], patch)] == once;
  }

  /** After an upsert, the key's row holds every field the patch supplied. */
  lemma UpsertCarriesPatch(rows: seq<PermissionRecord>, userId: string, tableName: string,
                           patch: PermissionPatch, defaults: ColumnDefaults)
    ensures var after := UpsertRows(rows, userId, tableName, patch, defaults);
      var k := KeyIndex(after, userId, tableName);
      && k.Some?
      && (patch.canCreate.Some? ==> after[k.value].canCreate == patch.canCreate.value)
      && (patch.canRead.Some? ==> after[k.value].canRead == patch.canRead.value)
      && (patch.canUpdate.Some? ==> after[k.value].canUpdate == patch.canUpdate.value)
      && (patch.canDelete.Some? ==> after[k.value].canDelete == patch.canDelete.value)
      && (patch.scope.Some? ==> after[k.value].scope == patch.scope.value)
  {
    var after := UpsertRows(rows, userId, tableName, patch, defaults);
    match KeyIndex(rows, userId, tableName)
    case Some(i) =>
      assert after == rows[i := PatchedRow(rows[i], patch)];
      forall j | 0 <= j < i ensures !HasKeyAt(after, j, userId, tableName) {
        assert !HasKeyAt(rows, j, userId, tableName);
        assert after[j] == rows[j];
      }
      KeyIndexIs(after, userId, tableName, i);
    case None =>
      assert after == rows + [CreatedRow(userId, tableName, patch, defaults)];
      forall j | 0 <= j < |rows| ensures !HasKeyAt(after, j, userId, tableName) {
        assert !HasKeyAt(rows, j, userId, tableName);
        assert after[j] == rows[j];
      }
      KeyIndexIs(after, userId, tableName, |rows|);
  }

  /** The key is at `i` when row `i` has it and no earlier row does. */
  lemma KeyIndexIs(rows: seq<PermissionRecord>, userId: string, tableName: string, i: nat)
    requires i < |rows| && HasKeyAt(rows, i, userId, tableName)
    requires forall j :: 0 <= j < i ==> !HasKeyAt(rows, j, userId, tableName)
    ensures KeyIndex(rows, userId, tableName) == Some(i)
  {
    assert HasKey(rows, userId, tableName);
  }

  /** Applying the same patch twice is applying it once. */
  lemma PatchTwice(row: PermissionRecord, patch: PermissionPatch)
    ensures PatchedRow(PatchedRow(row, patch), patch) == PatchedRow(row, patch)
  {
  }

  /** A created row already carries every field of its patch. */
  lemma PatchCreated(userId: string, tableName: string, patch: PermissionPatch, defaults: ColumnDefaults)
    ensures PatchedRow(CreatedRow(userId, tableName, patch, defaults), patch) == CreatedRow(userId, tableName, patch, defaults)
  {
  }

  /** `deleteByUserIdTableName` removes exactly the keyed row: the other rows
      stay, in order, and the key is gone. */
  lemma DeleteRemovesOnlyKey(rows: seq<PermissionRecord>, userId: string, tableName: string)
    requires UniqueKeys(rows) && HasKey(rows, userId, tableName)
    ensures var r := DeleteRows(rows, userId, tableName);
      && !HasKey(r, userId, tableName)
      && |r| == |rows| - 1
      && (forall x :: x in r <==> x in rows && (x.userId != userId || x.tableName != tableName))
      && UniqueKeys(r)
  {
    var i := KeyIndex(rows, userId, tableName).value;
    var r := DeleteRows(rows, userId, tableName);
    assert forall j :: 0 <= j < i ==> r[j] == rows[j];
    assert forall j :: i <= j < |r| ==> r[j] == rows[j + 1];
    forall x | x in rows && (x.userId != userId || x.tableName != tableName) ensures x in r {
      var j :| 0 <= j < |rows| && rows[j] == x;
      if j < i { assert r[j] == x; } else { assert r[j - 1] == x; }
    }
  }

  /** The repository over the `userPermission` table. */
  class PermissionsRepository {
    var rows: seq<PermissionRecord>
    const defaults: ColumnDefaults

    ghost predicate Valid()
      reads this
    {
      UniqueKeys(rows)
    }

    constructor (defaults: ColumnDefaults)
      ensures Valid() && rows == [] && this.defaults == defaults
    {
      rows := [];
      this.defaults := defaults;
    }

    /** `upsert`: create the keyed row or overwrite its supplied fields. */
    method Upsert(userId: string, tableName: string, patch: PermissionPatch)
      requires Valid()
      modifies this
      ensures Valid()
      ensures rows == UpsertRows(old(rows), userId, tableName, patch, defaults)
      ensures HasKey(rows, userId, tableName)
    {
      UpsertKeepsUnique(rows, userId, tableName, patch, defaults);
      UpsertHasKey(rows, userId, tableName, patch, defaults);
      var k := KeyIndex(rows, userId, tableName);
      if k.Some? {
        rows := rows[k.value := PatchedRow(rows[k.value], patch)];
      } else {
        rows := rows + [CreatedRow(userId, tableName, patch, defaults)];
      }
    }

    /** `deleteByUserIdTableName`: remove the keyed row (Prisma's `delete`
        of a missing row is not modelled, so the row must exist). */
    method DeleteByUserIdTableName(userId: string, tableName: string)
      requires Valid() && HasKey(rows, userId, tableName)
      modifies this
      ensures Valid()
      ensures rows == DeleteRows(old(rows), userId, tableName)
      ensures !HasKey(rows, userId, tableName)
    {
      DeleteRemovesOnlyKey(rows, userId, tableName);
      var i := KeyIndex(rows, userId, tableName).value;
      rows := rows[..i] + rows[i + 1..];
    }
  }
}
