// The field editor: the list of a form's fields the user reorders, edits,
// adds to and deletes from, before saving them as customisations. Dialogs,
// the metadata service and the GUID of a new field are parameters; loading
// and saving are not modelled.

module FieldEditors {
  import opened Common
  import opened Text
  import opened Collections

  /** A field as the editor holds it. */
  datatype EditableField = EditableField(
    id: string,
    fieldName: string,
    labelFa: string,
    fieldType: string,
    required: bool,
    visible: bool,
    defaultValue: Option<string>,
    order: int,
    width: Option<int>,
    isCustom: bool,
    isNew: bool,
    canEdit: bool,
    readOnly: bool)

  /** Whether the options editor is shown: for the two list types only. */
  predicate ShowOptions(fieldType: string) {
    fieldType == "select" || fieldType == "multiselect"
  }

  /** Whether the numeric settings are shown: for the three number types only. */
  predicate ShowNumericSettings(fieldType: string) {
    fieldType == "number" || fieldType == "decimal" || fieldType == "integer"
  }

  /** No field type shows both the options editor and the numeric settings. */
  lemma SettingsPanelsExclusive(fieldType: string)
    ensures !(ShowOptions(fieldType) && ShowNumericSettings(fieldType))
  {
    if ShowOptions(fieldType) {
      assert fieldType[0] in {'s', 'm'};
    }
  }

  /** The prefix of the id of every field the user adds. */
  const CustomPrefix: string := "custom_"

  /** The label a new field starts with. */
  const NewFieldLabel: string := "New field"

  /** `AddField`'s draft: a visible, new, custom text field with a fresh id,
    * ordered after every field in the list. */
  function NewField(guid: string, count: int): (r: EditableField)
    ensures StartsWith(r.id, CustomPrefix) && r.isCustom && r.isNew && r.visible
    ensures r.order == count && r.fieldName == ""
  {
    EditableField(CustomPrefix + guid, "", NewFieldLabel, "text", false, true, None, count, None, true, true, true, false)
  }

  // ----------------------------------------------------------------- numbering

  /** Every field numbered by its position. */
  function Renumbered(s: seq<EditableField>): (r: seq<EditableField>)
    ensures |r| == |s|
    ensures forall i :: 0 <= i < |s| ==> r[i] == s[i].(order := i)
  {
    seq(|s|, i requires 0 <= i < |s| => s[i].(order := i))
  }

  /** The fields with their order numbers blanked out. */
  function Unnumbered(s: seq<EditableField>): (r: seq<EditableField>)
    ensures |r| == |s|
    ensures forall i :: 0 <= i < |s| ==> r[i] == s[i].(order := 0)
  {
    seq(|s|, i requires 0 <= i < |s| => s[i].(order := 0))
  }

  /** Every field's order is its position. */
  predicate Numbered(s: seq<EditableField>) {
    forall i :: 0 <= i < |s| ==> s[i].order == i
  }

  /** A move followed by renumbering leaves the list numbered, and apart from
    * the order numbers it holds the same fields as before. */
  lemma MoveThenRenumber(s: seq<EditableField>, from: int, to: int)
    requires 0 <= from < |s| && 0 <= to < |s|
    ensures Numbered(Renumbered(Moved(s, from, to)))
    ensures multiset(Unnumbered(Renumbered(Moved(s, from, to)))) == multiset(Unnumbered(s))
  {
    var m := Moved(s, from, to);
    assert Unnumbered(Renumbered(m)) == Unnumbered(m);
    UnnumberedMoved(s, from, to);
    MovedIsPermutation(Unnumbered(s), from, to);
  }

  lemma UnnumberedMoved(s: seq<EditableField>, from: int, to: int)
    requires 0 <= from < |s| && 0 <= to < |s|
    ensures Unnumbered(Moved(s, from, to)) == Moved(Unnumbered(s), from, to)
  {
    var u := Unnumbered(s);
    var rest := s[..from] + s[from + 1..];
    var urest := u[..from] + u[from + 1..];
    assert Unnumbered(rest) == urest by {
      UnnumberedConcat(s[..from], s[from + 1..]);
      assert Unnumbered(s[..from]) == u[..from];
      assert Unnumbered(s[from + 1..]) == u[from + 1..];
    }
    UnnumberedConcat(rest[..to] + [s[from]], rest[to..]);
    UnnumberedConcat(rest[..to], [s[from]]);
    assert Unnumbered(rest[..to]) == urest[..to];
    assert Unnumbered(rest[to..]) == urest[to..];
  }

  lemma UnnumberedConcat(a: seq<EditableField>, b: seq<EditableField>)
    ensures Unnumbered(a + b) == Unnumbered(a) + Unnumbered(b)
  {
  }

  /** The position of the first field with id `id`. */
  function FirstWithId(s: seq<EditableField>, id: string): (r: Option<nat>)
    ensures r.None? <==> forall j :: 0 <= j < |s| ==> s[j].id != id
    ensures r.Some? ==> r.value < |s| && s[r.value].id == id && forall j :: 0 <= j < r.value ==> s[j].id != id
  {
    if s == [] then None
    else if s[0].id == id then Some(0)
    else
      match FirstWithId(s[1..], id)
      case None => None
      case Some(k) => Some(k + 1)
  }

  // ------------------------------------------------------------------ messages

  const LabelRequired: string := "the field label is required"
  const FieldNameRequired: string := "the field name is required"
  const SystemFieldNotDeletable: string := "system fields cannot be deleted; hide them instead"

  /** The check `ConfirmEdit` makes of a draft: a label, and for a new custom
    * field a field name. */
  function DraftProblem(e: EditableField): (r: Option<string>)
    ensures r.None? <==> !IsBlank(e.labelFa) && !(e.isCustom && e.isNew && IsBlank(e.fieldName))
    ensures IsBlank(e.labelFa) ==> r == Some(LabelRequired)
  {
    if IsBlank(e.labelFa) then Some(LabelRequired)
    else if e.isCustom && e.isNew && IsBlank(e.fieldName) then Some(FieldNameRequired)
    else None
  }

  /** The list once a draft that passed the check is confirmed: a new field
    * goes at the end; an existing one replaces the first field with its id, or
    * is dropped when no field has it. */
  function Confirmed(s: seq<EditableField>, e: EditableField): (r: seq<EditableField>)
    ensures e.isNew ==> r == s + [e]
    ensures !e.isNew ==> |r| == |s| && (forall j :: 0 <= j < |s| && s[j].id != e.id ==> r[j] == s[j])
    ensures !e.isNew && (exists j :: 0 <= j < |s| && s[j].id == e.id) ==> e in r
  {
    if e.isNew then s + [e]
    else
      match FirstWithId(s, e.id)
      case None => s
      case Some(i) => assert s[i := e][i] == e; s[i := e]
  }

  // ------------------------------------------------------------------ the editor

  class FieldEditorViewModel {
    var fields: seq<EditableField>
    var editingField: Option<EditableField>
    var isEditPanelVisible: bool
    var hasChanges: bool
    var lastError: Option<string>

    constructor()
      ensures fields == [] && editingField.None? && !isEditPanelVisible && !hasChanges && lastError.None?
    {
      fields := [];
      editingField := None;
      isEditPanelVisible := false;
      hasChanges := false;
      lastError := None;
    }

    /** `UpdateFieldOrders`: each field's order set to its position. */
    method UpdateFieldOrders()
      modifies this`fields
      ensures fields == Renumbered(old(fields))
    {
      var i := 0;
      while i < |fields|
        invariant 0 <= i <= |fields| && |fields| == |old(fields)|
        invariant forall j :: 0 <= j < i ==> fields[j] == old(fields)[j].(order := j)
        invariant forall j :: i <= j < |fields| ==> fields[j] == old(fields)[j]
      {
        fields := fields[i := fields[i].(order := i)];
        i := i + 1;
      }
    }

    /** `Move` followed by the renumbering; the list has changed. */
    method MoveField(from: int, to: int)
      requires 0 <= from < |fields| && 0 <= to < |fields|
      modifies this`fields, this`hasChanges
      ensures fields == Renumbered(Moved(old(fields), from, to)) && hasChanges
    {
      fields := Moved(fields, from, to);
      UpdateFieldOrders();
      hasChanges := true;
    }

    /** `MoveUp`: a field that is not first trades places with the one before
      * it and the list is renumbered; the first field, a field not in the
      * list, or none, changes nothing. */
    method MoveUp(field: Option<EditableField>)
      modifies this`fields, this`hasChanges
      ensures field.None? || IndexOf(old(fields), field.value) <= 0 ==>
        fields == old(fields) && hasChanges == old(hasChanges)
      ensures field.Some? && IndexOf(old(fields), field.value) > 0 ==>
        var i := IndexOf(old(fields), field.value);
        fields == Renumbered(Moved(old(fields), i, i - 1)) && hasChanges
    {
      if field.None? {
        return;
      }
      var index := IndexOf(fields, field.value);
      if index > 0 {
        MoveField(index, index - 1);
      }
    }

    /** `MoveDown`: a field that is not last trades places with the one after
      * it and the list is renumbered; the last field, or none, changes
      * nothing. A field missing from a non-empty list makes the collection
      * move from position -1, which throws. */
    method MoveDown(field: Option<EditableField>) returns (r: Result<bool>)
      modifies this`fields, this`hasChanges
      ensures r.Failure? <==> field.Some? && field.value !in old(fields) && |old(fields)| > 0
      ensures r.Success? && (field.None? || IndexOf(old(fields), field.value) == |old(fields)| - 1 || old(fields) == []) ==>
        fields == old(fields) && hasChanges == old(hasChanges)
      ensures field.Some? && 0 <= IndexOf(old(fields), field.value) < |old(fields)| - 1 ==>
        var i := IndexOf(old(fields), field.value);
        fields == Renumbered(Moved(old(fields), i, i + 1)) && hasChanges
    {
      if field.None? {
        return Success(false);
      }
      var index := IndexOf(fields, field.value);
      if index < |fields| - 1 {
        if index < 0 {
          return Failure(Custom("ArgumentOutOfRangeException", "oldIndex"));
        }
        MoveField(index, index + 1);
      }
      return Success(true);
    }

    /** `AddField`: a new draft, the edit panel open. */
    method AddField(guid: string)
      modifies this`editingField, this`isEditPanelVisible
      ensures editingField == Some(NewField(guid, |fields|)) && isEditPanelVisible
    {
      editingField := Some(NewField(guid, |fields|));
      isEditPanelVisible := true;
    }

    /** `EditField`: a copy of the field becomes the draft. */
    method EditField(field: Option<EditableField>)
      modifies this`editingField, this`isEditPanelVisible
      ensures field.None? ==> editingField == old(editingField) && isEditPanelVisible == old(isEditPanelVisible)
      ensures field.Some? ==> editingField == field && isEditPanelVisible
    {
      if field.None? {
        return;
      }
      editingField := field;
      isEditPanelVisible := true;
    }

    /** `CancelEdit`: the draft is dropped and the panel closed. */
    method CancelEdit()
      modifies this`editingField, this`isEditPanelVisible
      ensures editingField.None? && !isEditPanelVisible
    {
      isEditPanelVisible := false;
      editingField := None;
    }

    /** `ConfirmEdit`: a draft without a label, or a new custom draft without a
      * field name, is refused with a message and stays open; otherwise it is
      * added or put in place, and the panel closes. */
    method ConfirmEdit()
      modifies this`fields, this`hasChanges, this`isEditPanelVisible, this`editingField, this`lastError
      ensures old(editingField).None? ==> unchanged(this)
      ensures old(editingField).Some? && DraftProblem(old(editingField).value).Some? ==>
        fields == old(fields) && hasChanges == old(hasChanges) && editingField == old(editingField)
        && isEditPanelVisible == old(isEditPanelVisible) && lastError == DraftProblem(old(editingField).value)
      ensures old(editingField).Some? && DraftProblem(old(editingField).value).None? ==>
        fields == Confirmed(old(fields), old(editingField).value) && hasChanges
        && !isEditPanelVisible && editingField.None? && lastError == old(lastError)
    {
      if editingField.None? {
        return;
      }
      var e := editingField.value;
      if IsBlank(e.labelFa) {
        lastError := Some(LabelRequired);
        return;
      }
      if e.isCustom && e.isNew && IsBlank(e.fieldName) {
        lastError := Some(FieldNameRequired);
        return;
      }
      if e.isNew {
        fields := fields + [e];
      } else {
        var existing := FirstWithId(fields, e.id);
        if existing.Some? {
          fields := fields[existing.value := e];
        }
      }
      hasChanges := true;
      isEditPanelVisible := false;
      editingField := None;
    }

    /** `DeleteField`: a system field is refused with a message; a custom one,
      * once the user confirms, is deleted through the metadata service, which
      * is handed the field's display order, and on success taken out of the
      * list, the error message cleared (`ExecuteAsync` clears the messages
      * first and `ShowSuccess` clears the error); on failure the service's
      * message is shown. */
    method DeleteField(field: Option<EditableField>, confirmed: bool, deleteUserDefinedField: int -> Result<bool>)
      modifies this`fields, this`hasChanges, this`lastError
      ensures field.None? ==> unchanged(this)
      ensures field.Some? && !field.value.isCustom ==>
        fields == old(fields) && hasChanges == old(hasChanges) && lastError == Some(SystemFieldNotDeletable)
      ensures field.Some? && field.value.isCustom && !confirmed ==> unchanged(this)
      ensures field.Some? && field.value.isCustom && confirmed ==>
        var result := deleteUserDefinedField(field.value.order);
        (result.Success? ==> fields == Removed(old(fields), field.value) && hasChanges && lastError.None?)
        && (result.Failure? ==> fields == old(fields) && hasChanges == old(hasChanges) && lastError == Some(result.error.message))
    {
      if field.None? {
        return;
      }
      var f := field.value;
      if !f.isCustom {
        lastError := Some(SystemFieldNotDeletable);
        return;
      }
      if confirmed {
        var result := deleteUserDefinedField(f.order);
        if result.Success? {
          fields := Removed(fields, f);
          hasChanges := true;
          lastError := None;
        } else {
          lastError := Some(result.error.message);
        }
      }
    }
  }

}
