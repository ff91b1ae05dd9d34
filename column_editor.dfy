// The column editor: the columns of a table the user shows, hides, reorders
// and edits before saving them as customisations, and the list of tables it
// offers. Dialogs and the metadata service are parameters; saving is not
// modelled.

module ColumnEditors {
  import opened Common
  import opened Linq
  import opened Collections

  /** A column as the editor holds it. */
  datatype EditableColumn = EditableColumn(
    id: string,
    field: string,
    headerFa: string,
    columnType: string,
    width: int,
    visible: bool,
    sortable: bool,
    alignment: string,
    order: int,
    customHeader: Option<string>)

  /** A table the editor offers. */
  datatype SimpleTable = SimpleTable(id: string, titleFa: string, dataSource: string)

  // ---------------------------------------------------------------- visibility

  /** How many columns are visible. */
  function CountVisible(s: seq<EditableColumn>): (r: nat)
    ensures r <= |s|
  {
    if s == [] then 0 else CountVisible(s[..|s| - 1]) + (if s[|s| - 1].visible then 1 else 0)
  }

  predicate AllVisible(s: seq<EditableColumn>) {
    forall i :: 0 <= i < |s| ==> s[i].visible
  }

  predicate NoneVisible(s: seq<EditableColumn>) {
    forall i :: 0 <= i < |s| ==> !s[i].visible
  }

  /** The count reaches the number of columns exactly when all are visible,
    * and is zero exactly when none is. */
  lemma {:induction false} CountVisibleExtremes(s: seq<EditableColumn>)
    ensures CountVisible(s) == |s| <==> AllVisible(s)
    ensures CountVisible(s) == 0 <==> NoneVisible(s)
    decreases |s|
  {
    if s != [] {
      var init := s[..|s| - 1];
      CountVisibleExtremes(init);
      assert forall i :: 0 <= i < |init| ==> init[i] == s[i];
    }
  }

  /** Every column with its visibility set to `v`, nothing else changed. */
  function WithVisibility(s: seq<EditableColumn>, v: bool): (r: seq<EditableColumn>)
    ensures |r| == |s|
    ensures forall i :: 0 <= i < |s| ==> r[i] == s[i].(visible := v)
  {
    seq(|s|, i requires 0 <= i < |s| => s[i].(visible := v))
  }

  /** Showing all makes every column visible, hiding all none. */
  lemma WithVisibilityCount(s: seq<EditableColumn>, v: bool)
    ensures CountVisible(WithVisibility(s, v)) == if v then |s| else 0
  {
    CountVisibleExtremes(WithVisibility(s, v));
  }

  // ----------------------------------------------------------------- numbering

  /** Every column numbered by its position. */
  function Renumbered(s: seq<EditableColumn>): (r: seq<EditableColumn>)
    ensures |r| == |s|
    ensures forall i :: 0 <= i < |s| ==> r[i] == s[i].(order := i)
  {
    seq(|s|, i requires 0 <= i < |s| => s[i].(order := i))
  }

  /** A move keeps the columns, so it keeps how many are visible; renumbering
    * changes no visibility. */
  lemma MoveKeepsVisibleCount(s: seq<EditableColumn>, from: int, to: int)
    requires 0 <= from < |s| && 0 <= to < |s|
    ensures CountVisible(Renumbered(Moved(s, from, to))) == CountVisible(s)
  {
    var m := Moved(s, from, to);
    MovedIsPermutation(s, from, to);
    CountVisibleIsMultiset(m, s);
    RenumberedKeepsCount(m);
  }

  lemma {:induction false} RenumberedKeepsCount(s: seq<EditableColumn>)
    ensures CountVisible(Renumbered(s)) == CountVisible(s)
    decreases |s|
  {
    if s != [] {
      var init := s[..|s| - 1];
      RenumberedKeepsCount(init);
      assert Renumbered(s)[..|s| - 1] == Renumbered(init)[..|init|];
      assert Renumbered(s)[..|s| - 1] == Renumbered(init);
    }
  }

  /** The count of visible columns depends only on which columns there are. */
  lemma {:induction false} CountVisibleIsMultiset(a: seq<EditableColumn>, b: seq<EditableColumn>)
    requires multiset(a) == multiset(b)
    ensures CountVisible(a) == CountVisible(b)
    decreases |a|
  {
    if a != [] {
      var x := a[|a| - 1];
      assert x in multiset(b);
      var k := IndexOf(b, x);
      MultisetRemove(a, |a| - 1);
      MultisetRemove(b, k);
      assert a[|a| - 1 + 1..] == [];
      assert a[..|a| - 1] + a[|a| - 1 + 1..] == a[..|a| - 1];
      CountVisibleIsMultiset(a[..|a| - 1], b[..k] + b[k + 1..]);
      CountVisibleRemove(b, k);
    } else {
      assert |b| == |multiset(b)| == 0;
    }
  }

  /** Taking out one element takes one occurrence out of the multiset. */
  lemma MultisetRemove(b: seq<EditableColumn>, k: int)
    requires 0 <= k < |b|
    ensures multiset(b[..k] + b[k + 1..]) == multiset(b) - multiset{b[k]}
  {
    assert b == b[..k] + [b[k]] + b[k + 1..];
  }

  /** Taking out one column takes its visibility out of the count. */
  lemma CountVisibleRemove(b: seq<EditableColumn>, k: int)
    requires 0 <= k < |b|
    ensures CountVisible(b) == CountVisible(b[..k] + b[k + 1..]) + (if b[k].visible then 1 else 0)
  {
    var x := b[k];
    assert b == b[..k] + ([x] + b[k + 1..]);
    CountVisibleSplit(b[..k], [x] + b[k + 1..]);
    CountVisibleSplit([x], b[k + 1..]);
    CountVisibleSplit(b[..k], b[k + 1..]);
    assert CountVisible([x]) == CountVisible([x][..0]) + (if x.visible then 1 else 0);
  }

  lemma {:induction false} CountVisibleSplit(a: seq<EditableColumn>, b: seq<EditableColumn>)
    ensures CountVisible(a + b) == CountVisible(a) + CountVisible(b)
    decreases |b|
  {
    if b == [] {
      assert a + b == a;
    } else {
      CountVisibleSplit(a, b[..|b| - 1]);
      assert (a + b)[..|a + b| - 1] == a + b[..|b| - 1];
    }
  }

  /** The position of the first column with id `id`. */
  function FirstWithId(s: seq<EditableColumn>, id: string): (r: Option<nat>)
    ensures r.None? <==> forall j :: 0 <= j < |s| ==> s[j].id != id
    ensures r.Some? ==> r.value < |s| && s[r.value].id == id && forall j :: 0 <= j < r.value ==> s[j].id != id
  {
    if s == [] then None
    else if s[0].id == id then Some(0)
    else
      match FirstWithId(s[1..], id)
      case None => None
      case Some(k) => Some(k + 1)
  }

  /** `ConfirmEdit`'s list: the edited column replaces the first column with
    * its id; a column no longer in the list is dropped, never appended. */
  function Replaced(s: seq<EditableColumn>, e: EditableColumn): (r: seq<EditableColumn>)
    ensures |r| == |s|
    ensures forall j :: 0 <= j < |s| && s[j].id != e.id ==> r[j] == s[j]
    ensures (exists j :: 0 <= j < |s| && s[j].id == e.id) ==> e in r
  {
    match FirstWithId(s, e.id)
    case None => s
    case Some(i) => assert s[i := e][i] == e; s[i := e]
  }

  // ------------------------------------------------------------------- tables

  /** The two tables always offered, before any a module declares. */
  const TradeListTable: SimpleTable := SimpleTable("tradeList", "Trades list", "Trades")
  const AccountListTable: SimpleTable := SimpleTable("accountList", "Accounts list", "Accounts")

  predicate DistinctIds(s: seq<SimpleTable>) {
    forall i, j :: 0 <= i < j < |s| ==> s[i].id != s[j].id
  }

  predicate HasTableId(s: seq<SimpleTable>, id: string) {
    exists i :: 0 <= i < |s| && s[i].id == id
  }

  /** Appending a table keeps every id offered and offers the new one. */
  lemma HasTableIdAppend(s: seq<SimpleTable>, t: SimpleTable)
    ensures forall id :: HasTableId(s, id) ==> HasTableId(s + [t], id)
    ensures HasTableId(s + [t], t.id)
  {
    forall id | HasTableId(s, id)
      ensures HasTableId(s + [t], id)
    {
      var i :| 0 <= i < |s| && s[i].id == id;
      assert (s + [t])[i] == s[i];
    }
    assert (s + [t])[|s|] == t;
  }

  // --------------------------------------------------------------- the editor

  class ColumnEditorViewModel {
    var availableTables: seq<SimpleTable>
    var selectedTable: Option<SimpleTable>
    var columns: seq<EditableColumn>
    var editingColumn: Option<EditableColumn>
    var isEditPanelVisible: bool
    var hasChanges: bool
    var isAllSelected: bool

    constructor()
      ensures availableTables == [] && selectedTable.None? && columns == [] && editingColumn.None?
      ensures !isEditPanelVisible && !hasChanges && isAllSelected
    {
      availableTables := [];
      selectedTable := None;
      columns := [];
      editingColumn := None;
      isEditPanelVisible := false;
      hasChanges := false;
      isAllSelected := true;
    }

    /** `VisibleCount`. */
    function VisibleCount(): (r: nat)
      reads this`columns
      ensures r <= |columns|
    {
      CountVisible(columns)
    }

    /** The loop that sets every column's visibility. */
    method SetEveryVisible(v: bool)
      modifies this`columns
      ensures columns == WithVisibility(old(columns), v)
    {
      var i := 0;
      while i < |columns|
        invariant 0 <= i <= |columns| && |columns| == |old(columns)|
        invariant forall j :: 0 <= j < i ==> columns[j] == old(columns)[j].(visible := v)
        invariant forall j :: i <= j < |columns| ==> columns[j] == old(columns)[j]
      {
        columns := columns[i := columns[i].(visible := v)];
        i := i + 1;
      }
    }

    /** The select-all check box's setter: a new value runs
      * `OnIsAllSelectedChanged`, which gives every column that visibility and
      * marks the editor changed; the same value does nothing. */
    method SetIsAllSelected(value: bool)
      modifies this`isAllSelected, this`columns, this`hasChanges
      ensures value == old(isAllSelected) ==> unchanged(this)
      ensures value != old(isAllSelected) ==>
        isAllSelected == value && columns == WithVisibility(old(columns), value) && hasChanges
    {
      if isAllSelected != value {
        isAllSelected := value;
        SetEveryVisible(value);
        hasChanges := true;
      }
    }

    /** `ShowAll`: every column visible, the check box ticked. */
    method ShowAll()
      modifies this`isAllSelected, this`columns, this`hasChanges
      ensures columns == WithVisibility(old(columns), true) && isAllSelected && hasChanges
      ensures VisibleCount() == |columns|
    {
      SetEveryVisible(true);
      SetIsAllSelected(true);
      hasChanges := true;
      WithVisibilityCount(old(columns), true);
    }

    /** `HideAll`: every column hidden, the check box cleared. */
    method HideAll()
      modifies this`isAllSelected, this`columns, this`hasChanges
      ensures columns == WithVisibility(old(columns), false) && !isAllSelected && hasChanges
      ensures VisibleCount() == 0
    {
      SetEveryVisible(false);
      SetIsAllSelected(false);
      hasChanges := true;
      WithVisibilityCount(old(columns), false);
    }

    /** `UpdateColumnOrders`: each column's order set to its position. */
    method UpdateColumnOrders()
      modifies this`columns
      ensures columns == Renumbered(old(columns))
    {
      var i := 0;
      while i < |columns|
        invariant 0 <= i <= |columns| && |columns| == |old(columns)|
        invariant forall j :: 0 <= j < i ==> columns[j] == old(columns)[j].(order := j)
        invariant forall j :: i <= j < |columns| ==> columns[j] == old(columns)[j]
      {
        columns := columns[i := columns[i].(order := i)];
        i := i + 1;
      }
    }

    /** `Move` followed by the renumbering; the list has changed. */
    method MoveColumn(from: int, to: int)
      requires 0 <= from < |columns| && 0 <= to < |columns|
      modifies this`columns, this`hasChanges
      ensures columns == Renumbered(Moved(old(columns), from, to)) && hasChanges
    {
      columns := Moved(columns, from, to);
      UpdateColumnOrders();
      hasChanges := true;
    }

    /** `MoveUp`: a column that is not first trades places with the one before
      * it and the list is renumbered; the first column, one not in the list,
      * or none, changes nothing. */
    method MoveUp(column: Option<EditableColumn>)
      modifies this`columns, this`hasChanges
      ensures column.None? || IndexOf(old(columns), column.value) <= 0 ==>
        columns == old(columns) && hasChanges == old(hasChanges)
      ensures column.Some? && IndexOf(old(columns), column.value) > 0 ==>
        var i := IndexOf(old(columns), column.value);
        columns == Renumbered(Moved(old(columns), i, i - 1)) && hasChanges
    {
      if column.None? {
        return;
      }
      var index := IndexOf(columns, column.value);
      if index > 0 {
        MoveColumn(index, index - 1);
      }
    }

    /** `MoveDown`: a column that is not last trades places with the one after
      * it and the list is renumbered; the last column, or none, changes
      * nothing; a column missing from a non-empty list makes the collection
      * move from position -1, which throws. */
    method MoveDown(column: Option<EditableColumn>) returns (r: Result<bool>)
      modifies this`columns, this`hasChanges
      ensures r.Failure? <==> column.Some? && column.value !in old(columns) && |old(columns)| > 0
      ensures r.Success? && (column.None? || IndexOf(old(columns), column.value) == |old(columns)| - 1 || old(columns) == []) ==>
        columns == old(columns) && hasChanges == old(hasChanges)
      ensures column.Some? && 0 <= IndexOf(old(columns), column.value) < |old(columns)| - 1 ==>
        var i := IndexOf(old(columns), column.value);
        columns == Renumbered(Moved(old(columns), i, i + 1)) && hasChanges
    {
      if column.None? {
        return Success(false);
      }
      var index := IndexOf(columns, column.value);
      if index < |columns| - 1 {
        if index < 0 {
          return Failure(Custom("ArgumentOutOfRangeException", "oldIndex"));
        }
        MoveColumn(index, index + 1);
      }
      return Success(true);
    }

    /** `EditColumn`: a copy of the column becomes the draft. */
    method EditColumn(column: Option<EditableColumn>)
      modifies this`editingColumn, this`isEditPanelVisible
      ensures column.None? ==> editingColumn == old(editingColumn) && isEditPanelVisible == old(isEditPanelVisible)
      ensures column.Some? ==> editingColumn == column && isEditPanelVisible
    {
      if column.None? {
        return;
      }
      editingColumn := column;
      isEditPanelVisible := true;
    }

    /** `CancelEdit`: the draft is dropped and the panel closed. */
    method CancelEdit()
      modifies this`editingColumn, this`isEditPanelVisible
      ensures editingColumn.None? && !isEditPanelVisible
    {
      isEditPanelVisible := false;
      editingColumn := None;
    }

    /** `ConfirmEdit`: the draft replaces the column with its id and the panel
      * closes; the list never grows. */
    method ConfirmEdit()
      modifies this`columns, this`hasChanges, this`isEditPanelVisible, this`editingColumn
      ensures old(editingColumn).None? ==> unchanged(this)
      ensures old(editingColumn).Some? ==>
        columns == Replaced(old(columns), old(editingColumn).value) && hasChanges
        && !isEditPanelVisible && editingColumn.None?
      ensures |columns| == |old(columns)|
    {
      if editingColumn.None? {
        return;
      }
      var e := editingColumn.value;
      var existing := FirstWithId(columns, e.id);
      if existing.Some? {
        columns := columns[existing.value := e];
      }
      hasChanges := true;
      isEditPanelVisible := false;
      editingColumn := None;
    }

    /** `UpdateIsAllSelected`, corrected: the check box's state follows the
      * columns, and the columns stay as they are. */
    method UpdateIsAllSelected()
      modifies this`isAllSelected
      ensures isAllSelected <==> AllVisible(columns)
    {
      var all := true;
      var i := 0;
      while i < |columns|
        invariant 0 <= i <= |columns|
        invariant all <==> forall j :: 0 <= j < i ==> columns[j].visible
      {
        all := all && columns[i].visible;
        i := i + 1;
      }
      isAllSelected := all;
    }

    /** `LoadColumnsAsync` with the corrected select-all update: the saved
      * columns in order, or the data source's defaults when there are none;
      * nothing marked changed, the visibility loaded kept. */
    method LoadColumns(saved: Option<seq<EditableColumn>>, defaults: seq<EditableColumn>)
      modifies this`columns, this`hasChanges, this`isAllSelected
      ensures saved.Some? ==>
        multiset(columns) == multiset(saved.value) && SortedBy(columns, ByKey((c: EditableColumn) => c.order))
        && KeepsTiesInOrder(columns, saved.value, ByKey((c: EditableColumn) => c.order))
      ensures saved.None? ==> columns == defaults
      ensures !hasChanges && (isAllSelected <==> AllVisible(columns))
    {
      if saved.Some? {
        ByKeyIsPreorder((c: EditableColumn) => c.order);
        columns := SortBy(saved.value, ByKey((c: EditableColumn) => c.order));
      } else {
        columns := defaults;
      }
      hasChanges := false;
      UpdateIsAllSelected();
    }

    /** `LoadTablesAsync`: the two built-in tables, then each table a module
      * declares whose id is not yet offered; the first table is selected when
      * none is. */
    method LoadTables(declared: seq<SimpleTable>)
      modifies this`availableTables, this`selectedTable
      ensures |availableTables| >= 2 && availableTables[..2] == [TradeListTable, AccountListTable]
      ensures DistinctIds(availableTables)
      ensures forall t :: t in declared ==> HasTableId(availableTables, t.id)
      ensures forall t :: t in availableTables ==> t in declared || t == TradeListTable || t == AccountListTable
      ensures old(selectedTable).None? ==> selectedTable == Some(TradeListTable)
      ensures old(selectedTable).Some? ==> selectedTable == old(selectedTable)
    {
      availableTables := [TradeListTable, AccountListTable];
      var i := 0;
      while i < |declared|
        invariant 0 <= i <= |declared| && |availableTables| >= 2 && selectedTable == old(selectedTable)
        invariant availableTables[..2] == [TradeListTable, AccountListTable]
        invariant DistinctIds(availableTables)
        invariant forall k :: 0 <= k < i ==> HasTableId(availableTables, declared[k].id)
        invariant forall t :: t in availableTables ==> t in declared || t == TradeListTable || t == AccountListTable
      {
        var t := declared[i];
        if !HasTableId(availableTables, t.id) {
          HasTableIdAppend(availableTables, t);
          availableTables := availableTables + [t];
        }
        i := i + 1;
      }
      if selectedTable.None? {
        assert availableTables[0] == availableTables[..2][0];
        selectedTable := Some(availableTables[0]);
      }
    }
  }

  // ---------------------------------------------------- select-all, as written

  /** The editor state the select-all update touches. */
  datatype SelectState = SelectState(columns: seq<EditableColumn>, isAllSelected: bool, hasChanges: bool)

  /** `UpdateIsAllSelected` as written: it assigns through the generated
    * property setter, so a change of the check box's state also runs
    * `OnIsAllSelectedChanged`, which sets every column's visibility to the
    * new state and marks the editor changed. */
  function UpdateIsAllSelectedAsWritten(st: SelectState): (r: SelectState)
    ensures r.isAllSelected == AllVisible(st.columns)
    ensures st.isAllSelected == AllVisible(st.columns) ==> r == st
    ensures st.isAllSelected != AllVisible(st.columns) ==> r.columns == WithVisibility(st.columns, r.isAllSelected) && r.hasChanges
  {
    var all := AllVisible(st.columns);
    if st.isAllSelected != all then SelectState(WithVisibility(st.columns, all), all, true)
    else st
  }

  /** When the box is ticked and some column is hidden, the update hides every
    * column and marks the editor changed: loading a table saved with one
    * hidden column shows none of them, with unsaved changes. */
  lemma AsWrittenHidesEveryColumn(st: SelectState)
    requires st.isAllSelected && !AllVisible(st.columns)
    ensures UpdateIsAllSelectedAsWritten(st).columns == WithVisibility(st.columns, false)
    ensures CountVisible(UpdateIsAllSelectedAsWritten(st).columns) == 0
    ensures UpdateIsAllSelectedAsWritten(st).hasChanges
  {
    WithVisibilityCount(st.columns, false);
  }

  /** The smallest such input: one visible column and one hidden. */
  lemma AsWrittenCounterexample()
    ensures var a := EditableColumn("symbol", "Symbol", "", "text", 100, true, true, "right", 0, None);
      var b := a.(id := "volume", visible := false, order := 1);
      var after := UpdateIsAllSelectedAsWritten(SelectState([a, b], true, false));
      after.columns == [a.(visible := false), b] && after.hasChanges && !after.isAllSelected
  {
    var a := EditableColumn("symbol", "Symbol", "", "text", 100, true, true, "right", 0, None);
    var b := a.(id := "volume", visible := false, order := 1);
    assert [a, b][1] == b;
    assert !AllVisible([a, b]);
    assert WithVisibility([a, b], false) == [a.(visible := false), b];
  }
}
