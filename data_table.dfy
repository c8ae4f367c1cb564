/** The generic data table: action and export buttons gated on the
    table's permission entry, the rows an export sends, the action column
    appended to the caller's columns, and the single-row delete dialog. */
module DataTable {
  import opened Common
  import opened PermissionHook

  /** What the actions header and each actions cell render. */
  datatype ActionCell = NoActions | Actions(edit: bool, delete: bool)

  function ActionCellOf(p: EffectivePermission): (r: ActionCell)
    ensures r.NoActions? <==> !p.canUpdate && !p.canDelete
  {
    if !p.canUpdate && !p.canDelete then NoActions else Actions(p.canUpdate, p.canDelete)
  }

  /** An Edit button iff `canUpdate`, a Delete button iff `canDelete`, and
      an actions cell never renders empty. */
  lemma ActionButtons(p: EffectivePermission)
    ensures ActionCellOf(p).Actions? ==> ActionCellOf(p).edit == p.canUpdate && ActionCellOf(p).delete == p.canDelete
    ensures ActionCellOf(p) != Actions(false, false)
    ensures (ActionCellOf(p).Actions? && ActionCellOf(p).edit) <==> p.canUpdate
    ensures (ActionCellOf(p).Actions? && ActionCellOf(p).delete) <==> p.canDelete
  {
  }

  /** The export dropdown is rendered iff `canUpdate`, and disabled on an empty table. */
  predicate ExportShown(p: EffectivePermission) {
    p.canUpdate
  }

  predicate ExportDisabled<T>(data: seq<T>) {
    |data| == 0
  }

  /** A column as far as the table's menus use it: its id and its column
      definition's `enableSorting` and `enableHiding` flags, each true when
      the definition leaves it out. TanStack's `getCanSort` also needs an
      accessor, which this record does not carry. */
  datatype Column = Column(id: string, enableSorting: bool, enableHiding: bool)

  /** The action column; sorting is left at the library default, which is on. */
  const ActionColumn := Column("actions", true, false)

  /** `[...columns, actionColumn]`. */
  function EnhancedColumns(columns: seq<Column>): (r: seq<Column>)
    ensures |r| == |columns| + 1 && r[..|columns|] == columns && r[|columns|] == ActionColumn
  {
    columns + [ActionColumn]
  }

  /** The columns listed in the "Columnas" visibility menu. */
  function HideableColumns(columns: seq<Column>): (r: seq<Column>)
    ensures forall c :: c in r <==> c in columns && c.enableHiding
  {
    if columns == [] then []
    else if columns[0].enableHiding then [columns[0]] + HideableColumns(columns[1..])
    else HideableColumns(columns[1..])
  }

  lemma {:induction false} HideableAppend(a: seq<Column>, b: seq<Column>)
    ensures HideableColumns(a + b) == HideableColumns(a) + HideableColumns(b)
  {
    if a == [] {
      assert a + b == b;
    } else {
      assert (a + b)[0] == a[0];
      assert (a + b)[1..] == a[1..] + b;
      HideableAppend(a[1..], b);
    }
  }

  /** The action column never shows in the visibility menu. */
  lemma ActionColumnNotHideable(columns: seq<Column>)
    ensures HideableColumns(EnhancedColumns(columns)) == HideableColumns(columns)
  {
    HideableAppend(columns, [ActionColumn]);
    assert HideableColumns([ActionColumn]) == [];
  }

  /** `getFilteredSelectedRowModel().rows`: the rows, in table order, whose
      index is both selected and passing the filters. */
  function SelectedRowsFrom<T>(data: seq<T>, selected: set<nat>, passing: set<nat>, i: nat): (r: seq<T>)
    requires i <= |data|
    ensures |r| <= |data| - i
    ensures forall x :: x in r ==> x in data[i..]
    ensures forall x :: x in r ==> exists k :: i <= k < |data| && k in selected && k in passing && data[k] == x
    ensures forall k :: i <= k < |data| && k in selected && k in passing ==> data[k] in r
    ensures (exists k :: i <= k < |data| && k in selected && k in passing) ==> |r| > 0
    decreases |data| - i
  {
    if i == |data| then []
    else
      var rest := SelectedRowsFrom(data, selected, passing, i + 1);
      assert forall x :: x in data[i + 1..] ==> x in data[i..];
      if i in selected && i in passing then [data[i]] + rest else rest
  }

  /** The rows whose index is selected and passes the filters, and no others,
      in table order. */
  function SelectedRows<T>(data: seq<T>, selected: set<nat>, passing: set<nat>): (r: seq<T>)
    ensures forall x :: x in r ==> x in data
    ensures forall x :: x in r ==> exists k :: 0 <= k < |data| && k in selected && k in passing && data[k] == x
    ensures forall k :: 0 <= k < |data| && k in selected && k in passing ==> data[k] in r
    ensures var ix := VisibleSelection(selected, passing, 0, |data|);
      |r| == |ix| && forall j :: 0 <= j < |ix| ==> r[j] == data[ix[j]]
  {
    assert data[0..] == data;
    SelectedRowsInOrder(data, selected, passing, 0);
    SelectedRowsFrom(data, selected, passing, 0)
  }

  /** The indices in `[i, n)`, ascending, that are both selected and passing. */
  function VisibleSelection(selected: set<nat>, passing: set<nat>, i: nat, n: nat): (ix: seq<nat>)
    requires i <= n
    ensures forall j :: 0 <= j < |ix| ==> i <= ix[j] < n
    ensures forall j, l :: 0 <= j < l < |ix| ==> ix[j] < ix[l]
    ensures forall k :: k in ix <==> i <= k < n && k in selected && k in passing
    decreases n - i
  {
    if i == n then []
    else
      var rest := VisibleSelection(selected, passing, i + 1, n);
      if i in selected && i in passing then [i] + rest else rest
  }

  /** The selected rows are the table's rows at the visible selection's
      indices, one for one and in table order. */
  lemma {:induction false} SelectedRowsInOrder<T>(data: seq<T>, selected: set<nat>, passing: set<nat>, i: nat)
    requires i <= |data|
    ensures var r := SelectedRowsFrom(data, selected, passing, i);
      var ix := VisibleSelection(selected, passing, i, |data|);
      |r| == |ix| && forall j :: 0 <= j < |ix| ==> r[j] == data[ix[j]]
    decreases |data| - i
  {
    if i < |data| {
      SelectedRowsInOrder(data, selected, passing, i + 1);
    }
  }

  /** The rows `handleExport` sends: the filtered selection if it is not
      empty, otherwise all the data. */
  function RowsToExport<T>(data: seq<T>, selected: set<nat>, passing: set<nat>): seq<T> {
    var rows := SelectedRows(data, selected, passing);
    if |rows| > 0 then rows else data
  }

  /** Every exported row is a table row; nothing is exported only when the
      table is empty; and with no visible selection the whole table goes. */
  lemma ExportRowsFacts<T>(data: seq<T>, selected: set<nat>, passing: set<nat>)
    ensures forall x :: x in RowsToExport(data, selected, passing) ==> x in data
    ensures |RowsToExport(data, selected, passing)| == 0 <==> |data| == 0
    ensures |RowsToExport(data, selected, passing)| <= |data|
    ensures (forall k :: 0 <= k < |data| ==> !(k in selected && k in passing)) ==>
      RowsToExport(data, selected, passing) == data
    ensures (exists k :: 0 <= k < |data| && k in selected && k in passing) ==>
      RowsToExport(data, selected, passing) == SelectedRows(data, selected, passing)
  {
    var rows := SelectedRows(data, selected, passing);
    assert data[0..] == data;
    if |rows| == 0 && |data| > 0 {
      assert RowsToExport(data, selected, passing) == data;
    }
    if forall k :: 0 <= k < |data| ==> !(k in selected && k in passing) {
      NoSelectionFrom(data, selected, passing, 0);
    }
  }

  lemma {:induction false} NoSelectionFrom<T>(data: seq<T>, selected: set<nat>, passing: set<nat>, i: nat)
    requires i <= |data|
    requires forall k :: 0 <= k < |data| ==> !(k in selected && k in passing)
    ensures SelectedRowsFrom(data, selected, passing, i) == []
    decreases |data| - i
  {
    if i < |data| {
      NoSelectionFrom(data, selected, passing, i + 1);
    }
  }

  datatype ExportFormat = Csv | Excel | JsonFormat | Pdf

  /** `handleExport(format)`: the call made to `onExport`, if the caller gave one. */
  function HandleExport<T>(hasOnExport: bool, format: ExportFormat, data: seq<T>, selected: set<nat>, passing: set<nat>): (r: Option<(ExportFormat, seq<T>)>)
    ensures r.Some? <==> hasOnExport
    ensures r.Some? ==> r.value.0 == format && r.value.1 == RowsToExport(data, selected, passing)
  {
    if hasOnExport then Some((format, RowsToExport(data, selected, passing))) else None
  }

  /** The delete dialog's state: open, the pending item, the row selection. */
  datatype DialogState<T> = DialogState(open: bool, pending: Option<T>, selection: set<nat>)

  /** `handleDeleteSingle(item)`. */
  function AfterDeleteSingle<T>(s: DialogState<T>, item: T): DialogState<T> {
    DialogState(true, Some(item), s.selection)
  }

  /** `confirmDelete`: the new state and the calls made to `onDelete`.
      `s.pending.Some?` stands for the truthiness test `if (itemsToDelete)`;
      a falsy row (`0`, `""`, `false`) would never reach `onDelete`, but
      every table passes object rows, which are always truthy. */
  function AfterConfirmDelete<T>(s: DialogState<T>, hasOnDelete: bool): (DialogState<T>, seq<T>) {
    var calls := if hasOnDelete && s.pending.Some? then [s.pending.value] else [];
    var selection := if hasOnDelete then {} else s.selection;
    (DialogState(false, None, selection), calls)
  }

  /** Confirming always closes the dialog and clears the pending item;
      `onDelete` sees at most one item, the pending one; and the selection
      is cleared only when `onDelete` exists. */
  lemma ConfirmDeleteFacts<T>(s: DialogState<T>, hasOnDelete: bool)
    ensures !AfterConfirmDelete(s, hasOnDelete).0.open && AfterConfirmDelete(s, hasOnDelete).0.pending.None?
    ensures |AfterConfirmDelete(s, hasOnDelete).1| <= 1
    ensures |AfterConfirmDelete(s, hasOnDelete).1| == 1 <==> hasOnDelete && s.pending.Some?
    ensures AfterConfirmDelete(s, hasOnDelete).1 != [] ==> AfterConfirmDelete(s, hasOnDelete).1[0] == s.pending.value
    ensures AfterConfirmDelete(s, hasOnDelete).0.selection == if hasOnDelete then {} else s.selection
  {
  }

  /** Clicking Delete on a row and confirming deletes exactly that row. */
  lemma DeleteSingleThenConfirm<T>(s: DialogState<T>, item: T)
    ensures AfterConfirmDelete(AfterDeleteSingle(s, item), true) == (DialogState(false, None, {}), [item])
    ensures AfterConfirmDelete(AfterDeleteSingle(s, item), false) == (DialogState(false, None, s.selection), [])
  {
  }

  class DataTableState<T> {
    var dialogOpen: bool
    var itemToDelete: Option<T>
    var rowSelection: set<nat>
    /** The calls made to `onDelete`, oldest first. */
    var deleted: seq<T>

    constructor ()
      ensures !dialogOpen && itemToDelete.None? && rowSelection == {} && deleted == []
    {
      dialogOpen := false;
      itemToDelete := None;
      rowSelection := {};
      deleted := [];
    }

    function Dialog(): DialogState<T>
      reads this
    {
      DialogState(dialogOpen, itemToDelete, rowSelection)
    }

    method HandleDeleteSingle(item: T)
      modifies this
      ensures Dialog() == AfterDeleteSingle(old(Dialog()), item)
      ensures deleted == old(deleted)
    {
      itemToDelete := Some(item);
      dialogOpen := true;
    }

    method ConfirmDelete(hasOnDelete: bool)
      modifies this
      ensures Dialog() == AfterConfirmDelete(old(Dialog()), hasOnDelete).0
      ensures deleted == old(deleted) + AfterConfirmDelete(old(Dialog()), hasOnDelete).1
    {
      if hasOnDelete {
        if itemToDelete.Some? {
          deleted := deleted + [itemToDelete.value];
        }
        rowSelection := {};
      }
      dialogOpen := false;
      itemToDelete := None;
    }
  }
}
