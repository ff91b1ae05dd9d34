// The user customisation store of the metadata service: saved form presets and
// saved filters (new ids above the largest, at most one default after a save),
// per-table column customisations (an upsert by column id), the application of
// field and column customisations to a form or a table, the section that
// receives the user-defined fields, the default trade table, and the stored
// values of user-defined fields.

module MetadataServices {
  import opened Common
  import opened Domain
  import opened Text
  import opened Linq
  import TradeServices

  // ---------------------------------------------------------------------------
  // Saved presets and filters
  // ---------------------------------------------------------------------------

  /** A saved form preset or a saved filter. Both are kept as one list per user
    * and form (or table), and the service treats the two lists alike; `C` is
    * what is saved: the preset's field values or the filter's conditions. */
  datatype Saved<C> = Saved(
    id: int,
    userId: int,
    scope: string,
    name: string,
    description: Option<string>,
    content: C,
    isDefault: bool,
    createdAt: int)

  datatype FilterCondition = FilterCondition(field: string, operator: string, value: string, logic: string)

  /** `FormPreset`: the scope is the form id, the content the field values. */
  type FormPreset = Saved<map<string, string>>
  /** `SavedFilter`: the scope is the table id, the content the conditions. */
  type SavedFilter = Saved<seq<FilterCondition>>

  predicate DistinctIds<C>(items: seq<Saved<C>>) {
    forall i, j :: 0 <= i < j < |items| ==> items[i].id != items[j].id
  }

  /** `Max(p => p.Id)` of a non-empty list. */
  function MaxId<C>(items: seq<Saved<C>>): (m: int)
    requires items != []
    ensures forall i :: 0 <= i < |items| ==> items[i].id <= m
    ensures exists i :: 0 <= i < |items| && items[i].id == m
  {
    if |items| == 1 then items[0].id
    else
      var rest := MaxId(items[1..]);
      assert forall i :: 1 <= i < |items| ==> items[i] == items[1..][i - 1];
      if items[0].id >= rest then items[0].id else rest
  }

  /** The id a new item receives: one above the largest id, 1 for an empty list. */
  function NextId<C>(items: seq<Saved<C>>): (id: int)
    ensures forall i :: 0 <= i < |items| ==> items[i].id < id
    ensures items == [] ==> id == 1
    ensures items != [] ==> exists i :: 0 <= i < |items| && items[i].id == id - 1
  {
    if items == [] then 1 else MaxId(items) + 1
  }

  /** `FirstOrDefault(p => p.Id == id)`, as a position. */
  function IndexOfId<C>(items: seq<Saved<C>>, id: int): (k: Option<nat>)
    ensures k.Some? ==> k.value < |items| && items[k.value].id == id
    ensures k.Some? ==> forall i :: 0 <= i < k.value ==> items[i].id != id
    ensures k.None? ==> forall i :: 0 <= i < |items| ==> items[i].id != id
  {
    if items == [] then None
    else if items[0].id == id then Some(0)
    else match IndexOfId(items[1..], id)
      case None => None
      case Some(k) => Some(k + 1)
  }

  /** The list after every item whose id is not `keepId` has lost its default flag. */
  function WithoutOtherDefaults<C>(items: seq<Saved<C>>, keepId: int): (r: seq<Saved<C>>)
    ensures |r| == |items|
    ensures forall i :: 0 <= i < |r| ==> r[i].isDefault == (items[i].isDefault && items[i].id == keepId)
    ensures forall i :: 0 <= i < |r| ==> r[i].(isDefault := items[i].isDefault) == items[i]
  {
    seq(|items|, i requires 0 <= i < |items| =>
      if items[i].id != keepId then items[i].(isDefault := false) else items[i])
  }

  /** The list in which exactly the items whose id is `id` are default. */
  function WithDefault<C>(items: seq<Saved<C>>, id: int): (r: seq<Saved<C>>)
    ensures |r| == |items|
    ensures forall i :: 0 <= i < |r| ==> (r[i].isDefault <==> r[i].id == id)
    ensures forall i :: 0 <= i < |r| ==> r[i].(isDefault := items[i].isDefault) == items[i]
  {
    seq(|items|, i requires 0 <= i < |items| => items[i].(isDefault := items[i].id == id))
  }

  /** The default-clearing loop of `SaveFormPresetAsync`/`SaveFilterAsync`. */
  method ClearOtherDefaults<C>(items: seq<Saved<C>>, keepId: int) returns (r: seq<Saved<C>>)
    ensures r == WithoutOtherDefaults(items, keepId)
  {
    r := [];
    for k := 0 to |items|
      invariant |r| == k
      invariant forall i :: 0 <= i < k ==> r[i] == WithoutOtherDefaults(items, keepId)[i]
    {
      var item := items[k];
      if item.id != keepId {
        item := item.(isDefault := false);
      }
      r := r + [item];
    }
  }

  /** The loop of `SetDefaultPresetAsync`/`SetDefaultFilterAsync`. */
  method MarkDefault<C>(items: seq<Saved<C>>, id: int) returns (r: seq<Saved<C>>)
    ensures r == WithDefault(items, id)
  {
    r := [];
    for k := 0 to |items|
      invariant |r| == k
      invariant forall i :: 0 <= i < k ==> r[i] == WithDefault(items, id)[i]
    {
      r := r + [items[k].(isDefault := items[k].id == id)];
    }
  }

  /** The item a save returns: a new item (id 0) with its new id and creation
    * time, otherwise the item as given. */
  function SavedItem<C>(items: seq<Saved<C>>, item: Saved<C>, now: int): (s: Saved<C>)
    ensures item.id == 0 ==> forall i :: 0 <= i < |items| ==> items[i].id < s.id
    ensures item.id != 0 ==> s == item
  {
    if item.id == 0 then item.(id := NextId(items), createdAt := now) else item
  }

  /** The list a save leaves behind. A new item is appended with the next id;
    * otherwise the first item with the same id takes the name, description,
    * content and default flag of the given one, and nothing happens when there
    * is none. A default save then clears the flag of every item with another id. */
  function AfterSave<C>(items: seq<Saved<C>>, item: Saved<C>, now: int): (r: seq<Saved<C>>)
    ensures var s := SavedItem(items, item, now);
      && |r| == |items| + (if item.id == 0 then 1 else 0)
      && (item.id == 0 ==> r[|items|] == s)
      && (item.isDefault ==> forall i :: 0 <= i < |r| && r[i].id != s.id ==> !r[i].isDefault)
      && (forall i :: 0 <= i < |items| ==> r[i].id == items[i].id && r[i].createdAt == items[i].createdAt)
    ensures DistinctIds(items) ==> DistinctIds(r)
  {
    var s := SavedItem(items, item, now);
    var updated :=
      if item.id == 0 then items + [s]
      else match IndexOfId(items, item.id)
        case None => items
        case Some(k) => items[k := items[k].(name := item.name, description := item.description,
                                              content := item.content, isDefault := item.isDefault)];
    if item.isDefault then WithoutOtherDefaults(updated, s.id) else updated
  }

  /** `FirstOrDefault(p => p.IsDefault)`. */
  function FirstDefault<C>(items: seq<Saved<C>>): (r: Option<Saved<C>>)
    ensures r.Some? <==> exists i :: 0 <= i < |items| && items[i].isDefault
    ensures r.Some? ==> exists i :: (0 <= i < |items| && items[i] == r.value && items[i].isDefault
                                     && forall j :: 0 <= j < i ==> !items[j].isDefault)
  {
    if items == [] then None
    else if items[0].isDefault then Some(items[0])
    else
      var r := FirstDefault(items[1..]);
      assert forall i :: 1 <= i < |items| ==> items[i] == items[1..][i - 1];
      r
  }

  /** With distinct ids, the default after `SetDefault` is the target item, and
    * there is none when no item has the target id. */
  lemma {:induction false} DefaultAfterSetDefault<C>(items: seq<Saved<C>>, id: int)
    requires DistinctIds(items)
    ensures IndexOfId(items, id).None? ==> FirstDefault(WithDefault(items, id)) == None
    ensures IndexOfId(items, id).Some? ==>
      FirstDefault(WithDefault(items, id)) == Some(items[IndexOfId(items, id).value].(isDefault := true))
  {
    var r := WithDefault(items, id);
    match IndexOfId(items, id)
    case None =>
      assert forall i :: 0 <= i < |r| ==> !r[i].isDefault;
    case Some(k) =>
      var d := FirstDefault(r);
      assert r[k].isDefault;
      var i :| 0 <= i < |r| && r[i] == d.value && r[i].isDefault && forall j :: 0 <= j < i ==> !r[j].isDefault;
      assert i == k;
  }

  /** With distinct ids, saving a default item that lands in the list leaves it
    * the only default, so the default lookup finds it. */
  lemma DefaultAfterSave<C>(items: seq<Saved<C>>, item: Saved<C>, now: int)
    requires DistinctIds(items) && item.isDefault
    requires item.id == 0 || IndexOfId(items, item.id).Some?
    ensures FirstDefault(AfterSave(items, item, now)).Some?
    ensures FirstDefault(AfterSave(items, item, now)).value.id == SavedItem(items, item, now).id
  {
    var r := AfterSave(items, item, now);
    var s := SavedItem(items, item, now);
    var k := if item.id == 0 then |items| else IndexOfId(items, item.id).value;
    assert r[k].id == s.id && r[k].isDefault;
    var d := FirstDefault(r);
    var i :| 0 <= i < |r| && r[i] == d.value && r[i].isDefault;
  }

  /** Saving a default item under an id that is neither 0 nor in the list
    * changes no item but clears every default flag. */
  lemma UnknownDefaultSaveClearsDefaults<C>(items: seq<Saved<C>>, item: Saved<C>, now: int)
    requires item.id != 0 && IndexOfId(items, item.id).None? && item.isDefault
    ensures FirstDefault(AfterSave(items, item, now)) == None
  {
    var r := AfterSave(items, item, now);
    assert forall i :: 0 <= i < |r| ==> !r[i].isDefault;
  }

  // ---------------------------------------------------------------------------
  // Column customisations
  // ---------------------------------------------------------------------------

  /** `UserColumnCustomization` as the service reads and writes it. */
  datatype ColumnCustomization = ColumnCustomization(
    userId: int,
    tableId: string,
    columnId: string,
    visible: bool,
    order: int,
    width: int,
    customHeader: Option<string>,
    updatedAt: Option<int>)

  predicate DistinctColumnIds(cs: seq<ColumnCustomization>) {
    forall i, j :: 0 <= i < j < |cs| ==> cs[i].columnId != cs[j].columnId
  }

  /** `FirstOrDefault(c => c.ColumnId == columnId)`, as a position. */
  function ColumnIndex(cs: seq<ColumnCustomization>, columnId: string): (k: Option<nat>)
    ensures k.Some? ==> k.value < |cs| && cs[k.value].columnId == columnId
    ensures k.Some? ==> forall i :: 0 <= i < k.value ==> cs[i].columnId != columnId
    ensures k.None? ==> forall i :: 0 <= i < |cs| ==> cs[i].columnId != columnId
  {
    if cs == [] then None
    else if cs[0].columnId == columnId then Some(0)
    else match ColumnIndex(cs[1..], columnId)
      case None => None
      case Some(k) => Some(k + 1)
  }

  /** The lookup finds the first position that holds the column. */
  lemma {:induction false} ColumnIndexFirst(cs: seq<ColumnCustomization>, columnId: string, k: nat)
    requires k < |cs| && cs[k].columnId == columnId
    requires forall i :: 0 <= i < k ==> cs[i].columnId != columnId
    ensures ColumnIndex(cs, columnId) == Some(k)
  {
    if k > 0 {
      assert forall i :: 0 <= i < k - 1 ==> cs[1..][i] == cs[i + 1];
      ColumnIndexFirst(cs[1..], columnId, k - 1);
    }
  }

  /** `SaveColumnCustomizationAsync` on the loaded list: the entry for the
    * column takes the new visibility, order, width and header, or the
    * customisation is appended when the column has none. */
  function UpsertColumn(cs: seq<ColumnCustomization>, c: ColumnCustomization, now: int): (r: seq<ColumnCustomization>)
    ensures DistinctColumnIds(cs) ==> DistinctColumnIds(r)
    ensures |r| == |cs| + (if ColumnIndex(cs, c.columnId).None? then 1 else 0)
    ensures forall i :: 0 <= i < |cs| && cs[i].columnId != c.columnId ==> r[i] == cs[i]
    ensures ColumnIndex(r, c.columnId).Some?
    ensures var e := r[ColumnIndex(r, c.columnId).value];
      e.visible == c.visible && e.order == c.order && e.width == c.width
      && e.customHeader == c.customHeader && e.updatedAt == Some(now)
  {
    match ColumnIndex(cs, c.columnId)
    case None =>
      var r := cs + [c.(updatedAt := Some(now))];
      assert ColumnIndex(r, c.columnId) == Some(|cs|) by {
        assert forall i :: 0 <= i < |cs| ==> r[i] == cs[i];
        ColumnIndexFirst(r, c.columnId, |cs|);
      }
      r
    case Some(k) =>
      var r := cs[k := cs[k].(visible := c.visible, order := c.order, width := c.width,
                             customHeader := c.customHeader, updatedAt := Some(now))];
      assert ColumnIndex(r, c.columnId) == Some(k) by {
        assert r[k].columnId == c.columnId;
        assert forall i :: 0 <= i < k ==> r[i] == cs[i];
        ColumnIndexFirst(r, c.columnId, k);
      }
      r
  }

  /** `ColumnSchema`, with the members the customisations touch. */
  datatype ColumnSchema = ColumnSchema(
    id: string,
    field: string,
    header: string,
    columnType: string,
    width: int,
    visible: bool,
    order: int)

  /** One column with its customisation, if it has one, applied. */
  function CustomizedColumn(col: ColumnSchema, cs: seq<ColumnCustomization>): (r: ColumnSchema)
    ensures r.id == col.id && r.field == col.field && r.columnType == col.columnType
    ensures ColumnIndex(cs, col.id).None? ==> r == col
    ensures ColumnIndex(cs, col.id).Some? ==>
      var c := cs[ColumnIndex(cs, col.id).value];
      && r.visible == c.visible && r.width == c.width && r.order == c.order
      && r.header == (if IsNullOrBlank(c.customHeader) then col.header else c.customHeader.value)
  {
    match ColumnIndex(cs, col.id)
    case None => col
    case Some(k) =>
      var c := cs[k];
      col.(visible := c.visible, width := c.width, order := c.order,
           header := if IsNullOrBlank(c.customHeader) then col.header else c.customHeader.value)
  }

  function CustomizedColumns(columns: seq<ColumnSchema>, cs: seq<ColumnCustomization>): (r: seq<ColumnSchema>)
    ensures |r| == |columns|
    ensures forall i :: 0 <= i < |r| ==> r[i] == CustomizedColumn(columns[i], cs)
  {
    seq(|columns|, i requires 0 <= i < |columns| => CustomizedColumn(columns[i], cs))
  }

  function ColumnOrder(c: ColumnSchema): int {
    c.order
  }

  /** `ApplyColumnCustomizations`: every column takes its customisation, then
    * the columns are ordered by `Order`. */
  method ApplyColumnCustomizations(columns: seq<ColumnSchema>, cs: seq<ColumnCustomization>)
    returns (r: seq<ColumnSchema>)
    ensures multiset(r) == multiset(CustomizedColumns(columns, cs))
    ensures |r| == |columns|
    ensures SortedBy(r, ByKey(ColumnOrder))
    ensures KeepsTiesInOrder(r, CustomizedColumns(columns, cs), ByKey(ColumnOrder))
  {
    var customized: seq<ColumnSchema> := [];
    for k := 0 to |columns|
      invariant |customized| == k
      invariant forall i :: 0 <= i < k ==> customized[i] == CustomizedColumn(columns[i], cs)
    {
      customized := customized + [CustomizedColumn(columns[k], cs)];
    }
    assert customized == CustomizedColumns(columns, cs);
    ByKeyIsPreorder(ColumnOrder);
    r := SortBy(customized, ByKey(ColumnOrder));
  }

  // ---------------------------------------------------------------------------
  // Field customisations and user-defined fields
  // ---------------------------------------------------------------------------

  /** `UserFieldCustomization` as the service reads it. */
  datatype FieldCustomization = FieldCustomization(
    fieldId: string,
    visible: bool,
    required: bool,
    customLabel: Option<string>,
    width: Option<int>,
    order: int)

  datatype OptionSchema = OptionSchema(value: string, caption: string)

  /** `FieldSchema`, with the members the customisations and the user-defined fields set. */
  datatype FieldSchema = FieldSchema(
    id: string,
    caption: string,
    fieldType: string,
    required: bool,
    visible: bool,
    width: Option<int>,
    defaultValue: Option<string>,
    options: Option<seq<OptionSchema>>)

  datatype SectionSchema = SectionSchema(id: string, title: string, collapsed: bool, fields: seq<FieldSchema>)

  /** `FirstOrDefault(c => c.FieldId == fieldId)`. */
  function FieldCustomizationOf(cs: seq<FieldCustomization>, fieldId: string): (r: Option<FieldCustomization>)
    ensures r.Some? ==> r.value in cs && r.value.fieldId == fieldId
    ensures r.None? ==> forall i :: 0 <= i < |cs| ==> cs[i].fieldId != fieldId
  {
    if cs == [] then None
    else if cs[0].fieldId == fieldId then Some(cs[0])
    else FieldCustomizationOf(cs[1..], fieldId)
  }

  /** One field with its customisation, if it has one, applied. */
  function CustomizedField(f: FieldSchema, cs: seq<FieldCustomization>): (r: FieldSchema)
    ensures r.id == f.id && r.fieldType == f.fieldType && r.options == f.options
    ensures FieldCustomizationOf(cs, f.id).None? ==> r == f
    ensures FieldCustomizationOf(cs, f.id).Some? ==>
      var c := FieldCustomizationOf(cs, f.id).value;
      && r.visible == c.visible && r.required == c.required
      && r.caption == (if IsNullOrBlank(c.customLabel) then f.caption else c.customLabel.value)
      && r.width == (if c.width.Some? then c.width else f.width)
  {
    match FieldCustomizationOf(cs, f.id)
    case None => f
    case Some(c) =>
      f.(visible := c.visible, required := c.required,
         caption := if IsNullOrBlank(c.customLabel) then f.caption else c.customLabel.value,
         width := if c.width.Some? then c.width else f.width)
  }

  function CustomizedFields(fields: seq<FieldSchema>, cs: seq<FieldCustomization>): (r: seq<FieldSchema>)
    ensures |r| == |fields|
    ensures forall i :: 0 <= i < |r| ==> r[i] == CustomizedField(fields[i], cs)
  {
    seq(|fields|, i requires 0 <= i < |fields| => CustomizedField(fields[i], cs))
  }

  /** The sort key of a field: its customisation's order, 999 without one. */
  function FieldKey(cs: seq<FieldCustomization>): FieldSchema -> int {
    (f: FieldSchema) => match FieldCustomizationOf(cs, f.id) case Some(c) => c.order case None => 999
  }

  /** The fields of one section: customised, then ordered by their sort key. */
  method CustomizeSection(fields: seq<FieldSchema>, cs: seq<FieldCustomization>) returns (r: seq<FieldSchema>)
    ensures multiset(r) == multiset(CustomizedFields(fields, cs))
    ensures |r| == |fields|
    ensures SortedBy(r, ByKey(FieldKey(cs)))
    ensures KeepsTiesInOrder(r, CustomizedFields(fields, cs), ByKey(FieldKey(cs)))
  {
    var customized: seq<FieldSchema> := [];
    for k := 0 to |fields|
      invariant |customized| == k
      invariant forall i :: 0 <= i < k ==> customized[i] == CustomizedField(fields[i], cs)
    {
      customized := customized + [CustomizedField(fields[k], cs)];
    }
    assert customized == CustomizedFields(fields, cs);
    ByKeyIsPreorder(FieldKey(cs));
    r := SortBy(customized, ByKey(FieldKey(cs)));
  }

  /** `ApplyFieldCustomizations`: every section keeps its place and its own
    * properties; its fields are customised and reordered. */
  method ApplyFieldCustomizations(sections: seq<SectionSchema>, cs: seq<FieldCustomization>)
    returns (r: seq<SectionSchema>)
    ensures |r| == |sections|
    ensures forall i :: 0 <= i < |r| ==> r[i].(fields := sections[i].fields) == sections[i]
    ensures forall i :: 0 <= i < |r| ==>
      && multiset(r[i].fields) == multiset(CustomizedFields(sections[i].fields, cs))
      && SortedBy(r[i].fields, ByKey(FieldKey(cs)))
      && KeepsTiesInOrder(r[i].fields, CustomizedFields(sections[i].fields, cs), ByKey(FieldKey(cs)))
  {
    r := [];
    for k := 0 to |sections|
      invariant |r| == k
      invariant forall i :: 0 <= i < k ==> r[i].(fields := sections[i].fields) == sections[i]
      invariant forall i :: 0 <= i < k ==>
        && multiset(r[i].fields) == multiset(CustomizedFields(sections[i].fields, cs))
        && SortedBy(r[i].fields, ByKey(FieldKey(cs)))
        && KeepsTiesInOrder(r[i].fields, CustomizedFields(sections[i].fields, cs), ByKey(FieldKey(cs)))
    {
      var fields := CustomizeSection(sections[k].fields, cs);
      r := r + [sections[k].(fields := fields)];
    }
  }

  /** `UserDefinedField` as the form builder reads it. */
  datatype UserDefinedField = UserDefinedField(
    fieldName: string,
    displayName: string,
    fieldType: string,
    required: bool,
    defaultValue: Option<string>,
    options: Option<string>,
    order: int)

  const CustomSectionId: string := "custom_fields"
  const CustomFieldPrefix: string := "custom_"

  /** The non-empty parts of a split (`StringSplitOptions.RemoveEmptyEntries`). */
  function NonEmptyParts(parts: seq<string>): (r: seq<string>)
    ensures forall i :: 0 <= i < |r| ==> r[i] != "" && r[i] in parts
    ensures forall p :: p in parts && p != "" ==> p in r
  {
    if parts == [] then []
    else if parts[0] == "" then NonEmptyParts(parts[1..])
    else [parts[0]] + NonEmptyParts(parts[1..])
  }

  /** The options of a select field written as plain text: each non-empty
    * comma-separated part, trimmed, as both value and caption. */
  function OptionsFromText(text: string): (r: seq<OptionSchema>)
    ensures |r| == |NonEmptyParts(Split(text, ','))|
    ensures forall i :: 0 <= i < |r| ==>
      && r[i].value == r[i].caption
      && ',' !in r[i].value
      && (r[i].value == [] || (!IsWhiteSpace(r[i].value[0]) && !IsWhiteSpace(r[i].value[|r[i].value| - 1])))
  {
    var parts := NonEmptyParts(Split(text, ','));
    assert forall i :: 0 <= i < |parts| ==> ',' !in parts[i];
    seq(|parts|, i requires 0 <= i < |parts| => OptionSchema(Trim(parts[i]), Trim(parts[i])))
  }

  /** The options of a user field: none when its option text is blank, the
    * JSON list when the text parses as one, otherwise the comma split.
    * `parseJson` stands for the JSON deserializer; `None` is a text it rejects. */
  function FieldOptions(u: UserDefinedField, parseJson: string -> Option<seq<OptionSchema>>): (r: Option<seq<OptionSchema>>)
    ensures IsNullOrBlank(u.options) <==> r.None?
    ensures !IsNullOrBlank(u.options) && parseJson(u.options.value).None? ==> r == Some(OptionsFromText(u.options.value))
  {
    if IsNullOrBlank(u.options) then None
    else match parseJson(u.options.value)
      case Some(opts) => Some(opts)
      case None => Some(OptionsFromText(u.options.value))
  }

  /** The form field shown for a user-defined field. */
  function UserFieldSchema(u: UserDefinedField, parseJson: string -> Option<seq<OptionSchema>>): (f: FieldSchema)
    ensures f.id == CustomFieldPrefix + u.fieldName && f.caption == u.displayName
    ensures f.fieldType == ToLower(u.fieldType) && f.required == u.required && f.defaultValue == u.defaultValue
    ensures f.options == FieldOptions(u, parseJson)
  {
    FieldSchema(CustomFieldPrefix + u.fieldName, u.displayName, ToLower(u.fieldType), u.required,
                true, None, u.defaultValue, FieldOptions(u, parseJson))
  }

  function UserFieldOrder(u: UserDefinedField): int {
    u.order
  }

  /** The user fields in the order they are added: by `Order`. */
  function OrderedUserFields(userFields: seq<UserDefinedField>): (r: seq<UserDefinedField>)
    ensures multiset(r) == multiset(userFields) && SortedBy(r, ByKey(UserFieldOrder))
    ensures KeepsTiesInOrder(r, userFields, ByKey(UserFieldOrder))
  {
    ByKeyIsPreorder(UserFieldOrder);
    SortBy(userFields, ByKey(UserFieldOrder))
  }

  /** The fields added for the user fields, one per user field, in order. */
  function AddedFields(userFields: seq<UserDefinedField>, parseJson: string -> Option<seq<OptionSchema>>): (r: seq<FieldSchema>)
    ensures |r| == |userFields|
    ensures forall i :: 0 <= i < |r| ==> r[i] == UserFieldSchema(OrderedUserFields(userFields)[i], parseJson)
  {
    var ordered := OrderedUserFields(userFields);
    seq(|ordered|, i requires 0 <= i < |ordered| => UserFieldSchema(ordered[i], parseJson))
  }

  /** The first section with the custom-fields id. */
  function CustomSectionIndex(sections: seq<SectionSchema>): (k: Option<nat>)
    ensures k.Some? ==> k.value < |sections| && sections[k.value].id == CustomSectionId
    ensures k.Some? ==> forall i :: 0 <= i < k.value ==> sections[i].id != CustomSectionId
    ensures k.None? ==> forall i :: 0 <= i < |sections| ==> sections[i].id != CustomSectionId
  {
    if sections == [] then None
    else if sections[0].id == CustomSectionId then Some(0)
    else match CustomSectionIndex(sections[1..])
      case None => None
      case Some(k) => Some(k + 1)
  }

  /** `AddUserDefinedFieldsToForm`: the user fields, ordered by `Order`, are
    * appended to the first custom-fields section, which is created at the end
    * of the form when there is none; every other section is left alone. */
  method AddUserDefinedFieldsToForm(sections: seq<SectionSchema>, userFields: seq<UserDefinedField>,
                                    parseJson: string -> Option<seq<OptionSchema>>)
    returns (r: seq<SectionSchema>)
    ensures CustomSectionIndex(sections).None? ==>
      r == sections + [SectionSchema(CustomSectionId, "Custom fields", false, AddedFields(userFields, parseJson))]
    ensures CustomSectionIndex(sections).Some? ==>
      var k := CustomSectionIndex(sections).value;
      && |r| == |sections|
      && r[k] == sections[k].(fields := sections[k].fields + AddedFields(userFields, parseJson))
      && forall i :: 0 <= i < |r| && i != k ==> r[i] == sections[i]
    ensures CustomSectionIndex(r).Some?
  {
    var section: SectionSchema;
    var index: nat;
    match CustomSectionIndex(sections) {
      case Some(k) =>
        section, index := sections[k], k;
      case None =>
        section, index := SectionSchema(CustomSectionId, "Custom fields", false, []), |sections|;
    }
    var fields := AppendUserFields(section.fields, userFields, parseJson);
    if index < |sections| {
      r := sections[index := section.(fields := fields)];
      assert forall i :: 0 <= i < index ==> r[i] == sections[i];
      CustomSectionIndexFirst(r, index);
    } else {
      assert fields == AddedFields(userFields, parseJson);
      r := sections + [section.(fields := fields)];
      assert forall i :: 0 <= i < |sections| ==> r[i] == sections[i];
      CustomSectionIndexFirst(r, |sections|);
    }
  }

  /** The loop of `AddUserDefinedFieldsToForm` adding one field per user field. */
  method AppendUserFields(existing: seq<FieldSchema>, userFields: seq<UserDefinedField>,
                          parseJson: string -> Option<seq<OptionSchema>>)
    returns (fields: seq<FieldSchema>)
    ensures fields == existing + AddedFields(userFields, parseJson)
  {
    var ordered := OrderedUserFields(userFields);
    fields := existing;
    for k := 0 to |ordered|
      invariant |fields| == |existing| + k
      invariant fields[..|existing|] == existing
      invariant forall i :: 0 <= i < k ==> fields[|existing| + i] == UserFieldSchema(ordered[i], parseJson)
    {
      fields := fields + [UserFieldSchema(ordered[k], parseJson)];
    }
  }

  /** The lookup finds the first custom-fields section. */
  lemma {:induction false} CustomSectionIndexFirst(sections: seq<SectionSchema>, k: nat)
    requires k < |sections| && sections[k].id == CustomSectionId
    requires forall i :: 0 <= i < k ==> sections[i].id != CustomSectionId
    ensures CustomSectionIndex(sections) == Some(k)
  {
    if k > 0 {
      assert forall i :: 0 <= i < k - 1 ==> sections[1..][i] == sections[i + 1];
      CustomSectionIndexFirst(sections[1..], k - 1);
    }
  }

  // ---------------------------------------------------------------------------
  // Tables
  // ---------------------------------------------------------------------------

  /** `TableSchema`, with the members the default table sets. */
  datatype TableSchema = TableSchema(
    id: string,
    dataSource: string,
    sortable: bool,
    filterable: bool,
    pageable: bool,
    pageSize: int,
    columns: seq<ColumnSchema>)

  const TradeListId: string := "tradeList"

  /** `CreateDefaultTradeTable`: the trade list with fifteen columns, of which
    * the last three are hidden. */
  function DefaultTradeTable(): (t: TableSchema)
    ensures t.id == TradeListId && t.pageSize == 50 && |t.columns| == 15
  {
    TableSchema(TradeListId, "Trades", true, true, true, 50, [
      ColumnSchema("id", "Id", "Row", "number", 60, true, 0),
      ColumnSchema("symbol", "Symbol", "Symbol", "text", 100, true, 1),
      ColumnSchema("direction", "Direction", "Direction", "enum", 80, true, 2),
      ColumnSchema("volume", "Volume", "Volume", "decimal", 80, true, 3),
      ColumnSchema("entryPrice", "EntryPrice", "Entry price", "decimal", 100, true, 4),
      ColumnSchema("exitPrice", "ExitPrice", "Exit price", "decimal", 100, true, 5),
      ColumnSchema("stopLoss", "StopLoss", "Stop loss", "decimal", 100, true, 6),
      ColumnSchema("takeProfit", "TakeProfit", "Take profit", "decimal", 100, true, 7),
      ColumnSchema("profitLoss", "ProfitLoss", "Profit/loss", "currency", 100, true, 8),
      ColumnSchema("rValue", "RValue", "R value", "decimal", 80, true, 9),
      ColumnSchema("entryTime", "EntryTime", "Entry time", "datetime", 150, true, 10),
      ColumnSchema("exitTime", "ExitTime", "Exit time", "datetime", 150, true, 11),
      ColumnSchema("session", "Session", "Session", "text", 80, false, 12),
      ColumnSchema("timeframe", "Timeframe", "Timeframe", "text", 80, false, 13),
      ColumnSchema("notes", "Notes", "Notes", "text", 200, false, 14)])
  }

  /** The default table's columns are listed in their display order: the
    * order of each column is its position. */
  lemma DefaultTradeTableOrdered()
    ensures var cs := DefaultTradeTable().columns;
      forall i :: 0 <= i < |cs| ==> cs[i].order == i
  {
  }

  predicate HasTable(tables: seq<TableSchema>, id: string) {
    exists i :: 0 <= i < |tables| && tables[i].id == id
  }

  /** `GetAllTablesAsync`: the tables of the registered schemas, with the
    * default trade list added at the end only when no table has its id. */
  function AllTables(schemaTables: seq<TableSchema>): (r: seq<TableSchema>)
    ensures HasTable(r, TradeListId)
    ensures schemaTables <= r && |r| <= |schemaTables| + 1
    ensures HasTable(schemaTables, TradeListId) ==> r == schemaTables
  {
    if HasTable(schemaTables, TradeListId) then schemaTables
    else
      var r := schemaTables + [DefaultTradeTable()];
      assert r[|schemaTables|].id == TradeListId;
      r
  }

  /** Asking again adds nothing: the default is added at most once. */
  lemma AllTablesIdempotent(schemaTables: seq<TableSchema>)
    ensures AllTables(AllTables(schemaTables)) == AllTables(schemaTables)
  {
  }

  // ---------------------------------------------------------------------------
  // Stored values of user-defined fields
  // ---------------------------------------------------------------------------

  /** The definition a stored row refers to, as its navigation property finds it. */
  function DefinitionById(defs: seq<FieldDefinition>, id: int): (d: Option<FieldDefinition>)
    ensures d.Some? ==> d.value in defs && d.value.id == id
    ensures d.None? ==> forall i :: 0 <= i < |defs| ==> defs[i].id != id
  {
    if defs == [] then None
    else if defs[0].id == id then Some(defs[0])
    else DefinitionById(defs[1..], id)
  }

  /** The row filter of `GetCustomFieldValueAsync`: the trade, and a definition
    * with that name owned by that user (the entity type is not compared). */
  predicate RowMatches(row: TradeCustomField, defs: seq<FieldDefinition>, userId: int, entityId: int, fieldName: string) {
    && row.tradeId == entityId
    && DefinitionById(defs, row.fieldDefinitionId).Some?
    && DefinitionById(defs, row.fieldDefinitionId).value.fieldName == fieldName
    && DefinitionById(defs, row.fieldDefinitionId).value.userId == userId
  }

  /** `GetCustomFieldValueAsync`: the value of the first matching row; `None`
    * both for a missing row and for a stored null. */
  function ValueOf(rows: seq<TradeCustomField>, defs: seq<FieldDefinition>, userId: int, entityId: int, fieldName: string)
    : (v: Option<string>)
    ensures (forall i :: 0 <= i < |rows| ==> !RowMatches(rows[i], defs, userId, entityId, fieldName)) ==> v.None?
    ensures v.Some? ==> exists i :: (0 <= i < |rows| && RowMatches(rows[i], defs, userId, entityId, fieldName)
                                     && rows[i].value == v)
  {
    if rows == [] then None
    else if RowMatches(rows[0], defs, userId, entityId, fieldName) then rows[0].value
    else
      var v := ValueOf(rows[1..], defs, userId, entityId, fieldName);
      assert forall i :: 1 <= i < |rows| ==> rows[i] == rows[1..][i - 1];
      v
  }

  /** The definition lookup of `SaveCustomFieldValueAsync`: user, entity type and name. */
  function DefinitionFor(defs: seq<FieldDefinition>, userId: int, entityType: string, fieldName: string)
    : (d: Option<FieldDefinition>)
    ensures d.Some? ==> (d.value in defs && d.value.userId == userId
                         && d.value.entityType == entityType && d.value.fieldName == fieldName)
    ensures d.None? ==> forall i :: 0 <= i < |defs| ==>
      !(defs[i].userId == userId && defs[i].entityType == entityType && defs[i].fieldName == fieldName)
  {
    if defs == [] then None
    else if defs[0].userId == userId && defs[0].entityType == entityType && defs[0].fieldName == fieldName
    then Some(defs[0])
    else DefinitionFor(defs[1..], userId, entityType, fieldName)
  }

  /** The position of the row of a (trade, definition) pair. */
  function PairIndex(rows: seq<TradeCustomField>, tradeId: int, definitionId: int): (k: Option<nat>)
    ensures k.Some? ==> k.value < |rows| && rows[k.value].tradeId == tradeId && rows[k.value].fieldDefinitionId == definitionId
    ensures k.None? ==> forall i :: 0 <= i < |rows| ==>
      !(rows[i].tradeId == tradeId && rows[i].fieldDefinitionId == definitionId)
  {
    if rows == [] then None
    else if rows[0].tradeId == tradeId && rows[0].fieldDefinitionId == definitionId then Some(0)
    else match PairIndex(rows[1..], tradeId, definitionId)
      case None => None
      case Some(k) => Some(k + 1)
  }

  /** The row change of `SaveCustomFieldValueAsync`: the row of the pair takes
    * the value, or a row is inserted when the pair has none. The pair stays
    * unique and every other row is kept as it was. */
  function UpsertValue(rows: seq<TradeCustomField>, tradeId: int, definitionId: int, value: Option<string>)
    : (r: seq<TradeCustomField>)
    ensures UniquePairs(rows) ==> UniquePairs(r)
    ensures |r| == |rows| + (if PairIndex(rows, tradeId, definitionId).None? then 1 else 0)
    ensures forall i :: (0 <= i < |rows| && (rows[i].tradeId, rows[i].fieldDefinitionId) != (tradeId, definitionId)
                         ==> r[i] == rows[i])
    ensures TradeCustomField(tradeId, definitionId, value) in r
  {
    match PairIndex(rows, tradeId, definitionId)
    case None => rows + [TradeCustomField(tradeId, definitionId, value)]
    case Some(k) =>
      var r := rows[k := rows[k].(value := value)];
      assert r[k] == TradeCustomField(tradeId, definitionId, value);
      r
  }

  /** A user's names identify their definitions: no two definitions of one user share a name. */
  predicate NamesIdentifyDefinitions(defs: seq<FieldDefinition>) {
    forall i, j ::
      0 <= i < |defs| && 0 <= j < |defs| && defs[i].userId == defs[j].userId && defs[i].fieldName == defs[j].fieldName
      ==> defs[i].id == defs[j].id
  }

  /** Reading a value back after storing it gives the stored value, provided
    * definition ids are unique, names identify a user's definitions and the
    * pairs are unique. */
  lemma ValueAfterSave(rows: seq<TradeCustomField>, defs: seq<FieldDefinition>, userId: int, entityType: string,
                       entityId: int, fieldName: string, value: Option<string>)
    requires UniquePairs(rows) && TradeServices.UniqueDefinitionIds(defs) && NamesIdentifyDefinitions(defs)
    requires DefinitionFor(defs, userId, entityType, fieldName).Some?
    ensures var d := DefinitionFor(defs, userId, entityType, fieldName).value;
      ValueOf(UpsertValue(rows, entityId, d.id, value), defs, userId, entityId, fieldName) == value
  {
    var d := DefinitionFor(defs, userId, entityType, fieldName).value;
    var r := UpsertValue(rows, entityId, d.id, value);
    var row := TradeCustomField(entityId, d.id, value);
    // every matching row belongs to the pair (entityId, d.id)
    forall i | 0 <= i < |r| && RowMatches(r[i], defs, userId, entityId, fieldName)
      ensures r[i].fieldDefinitionId == d.id
    {
      var e := DefinitionById(defs, r[i].fieldDefinitionId).value;
      var a :| 0 <= a < |defs| && defs[a] == e;
      var b :| 0 <= b < |defs| && defs[b] == d;
    }
    var k :| 0 <= k < |r| && r[k] == row;
    assert DefinitionById(defs, d.id) == Some(d) by {
      var b :| 0 <= b < |defs| && defs[b] == d;
      var e := DefinitionById(defs, d.id);
      if e.Some? {
        var a :| 0 <= a < |defs| && defs[a] == e.value;
      }
    }
    assert RowMatches(r[k], defs, userId, entityId, fieldName);
    ValueOfUniqueMatch(r, defs, userId, entityId, fieldName, k);
  }

  /** When exactly one row matches, the lookup returns that row's value. */
  lemma {:induction false} ValueOfUniqueMatch(rows: seq<TradeCustomField>, defs: seq<FieldDefinition>, userId: int,
                                              entityId: int, fieldName: string, k: nat)
    requires k < |rows| && RowMatches(rows[k], defs, userId, entityId, fieldName)
    requires forall i :: 0 <= i < |rows| && i != k ==> !RowMatches(rows[i], defs, userId, entityId, fieldName)
    ensures ValueOf(rows, defs, userId, entityId, fieldName) == rows[k].value
  {
    if k > 0 {
      assert forall i :: 1 <= i < |rows| ==> rows[i] == rows[1..][i - 1];
      ValueOfUniqueMatch(rows[1..], defs, userId, entityId, fieldName, k - 1);
    }
  }

  // ---------------------------------------------------------------------------
  // The service
  // ---------------------------------------------------------------------------

  /** The customisation store. Presets, filters and column customisations are
    * kept per user and per form or table, as the service keeps them in the
    * user's settings; a key without an entry is an empty list. */
  class MetadataService {
    var presets: map<(int, string), seq<FormPreset>>
    var filters: map<(int, string), seq<SavedFilter>>
    var columnCustomizations: map<(int, string), seq<ColumnCustomization>>
    var fieldDefinitions: seq<FieldDefinition>
    var customFieldValues: seq<TradeCustomField>

    predicate Valid()
      reads this
    {
      && (forall key :: key in presets ==> DistinctIds(presets[key]))
      && (forall key :: key in filters ==> DistinctIds(filters[key]))
      && (forall key :: key in columnCustomizations ==> DistinctColumnIds(columnCustomizations[key]))
      && UniquePairs(customFieldValues)
    }

    constructor(definitions: seq<FieldDefinition>, values: seq<TradeCustomField>)
      requires UniquePairs(values)
      ensures Valid()
      ensures presets == map[] && filters == map[] && columnCustomizations == map[]
      ensures fieldDefinitions == definitions && customFieldValues == values
    {
      presets := map[];
      filters := map[];
      columnCustomizations := map[];
      fieldDefinitions := definitions;
      customFieldValues := values;
    }

    /** `GetFormPresetsAsync`. */
    function PresetsOf(userId: int, formId: string): seq<FormPreset>
      reads this
    {
      if (userId, formId) in presets then presets[(userId, formId)] else []
    }

    /** `GetSavedFiltersAsync`. */
    function FiltersOf(userId: int, tableId: string): seq<SavedFilter>
      reads this
    {
      if (userId, tableId) in filters then filters[(userId, tableId)] else []
    }

    /** `GetColumnCustomizationsAsync`. */
    function ColumnsOf(userId: int, tableId: string): seq<ColumnCustomization>
      reads this
    {
      if (userId, tableId) in columnCustomizations then columnCustomizations[(userId, tableId)] else []
    }

    /** `SaveFormPresetAsync`. */
    method SaveFormPreset(preset: FormPreset, now: int) returns (r: Result<FormPreset>)
      requires Valid()
      modifies this
      ensures Valid()
      ensures r == Success(SavedItem(old(PresetsOf(preset.userId, preset.scope)), preset, now))
      ensures presets == old(presets)[(preset.userId, preset.scope) := AfterSave(old(PresetsOf(preset.userId, preset.scope)), preset, now)]
      ensures filters == old(filters) && columnCustomizations == old(columnCustomizations)
      ensures fieldDefinitions == old(fieldDefinitions) && customFieldValues == old(customFieldValues)
    {
      var list := PresetsOf(preset.userId, preset.scope);
      var saved, updated := SaveInto(list, preset, now);
      presets := presets[(preset.userId, preset.scope) := updated];
      r := Success(saved);
    }

    /** `SaveFilterAsync`. */
    method SaveFilter(filter: SavedFilter, now: int) returns (r: Result<SavedFilter>)
      requires Valid()
      modifies this
      ensures Valid()
      ensures r == Success(SavedItem(old(FiltersOf(filter.userId, filter.scope)), filter, now))
      ensures filters == old(filters)[(filter.userId, filter.scope) := AfterSave(old(FiltersOf(filter.userId, filter.scope)), filter, now)]
      ensures presets == old(presets) && columnCustomizations == old(columnCustomizations)
      ensures fieldDefinitions == old(fieldDefinitions) && customFieldValues == old(customFieldValues)
    {
      var list := FiltersOf(filter.userId, filter.scope);
      var saved, updated := SaveInto(list, filter, now);
      filters := filters[(filter.userId, filter.scope) := updated];
      r := Success(saved);
    }

    /** `DeleteFormPresetAsync` and `DeleteFilterAsync` report success and remove nothing. */
    method DeleteSaved(id: int) returns (r: Result<bool>)
      ensures r == Success(true)
    {
      r := Success(true);
    }

    /** `SetDefaultPresetAsync`. */
    method SetDefaultPreset(userId: int, formId: string, presetId: int) returns (r: Result<bool>)
      requires Valid()
      modifies this
      ensures Valid()
      ensures r == Success(true)
      ensures presets == old(presets)[(userId, formId) := WithDefault(old(PresetsOf(userId, formId)), presetId)]
      ensures filters == old(filters) && columnCustomizations == old(columnCustomizations)
      ensures fieldDefinitions == old(fieldDefinitions) && customFieldValues == old(customFieldValues)
    {
      var list := MarkDefault(PresetsOf(userId, formId), presetId);
      presets := presets[(userId, formId) := list];
      r := Success(true);
    }

    /** `SetDefaultFilterAsync`. */
    method SetDefaultFilter(userId: int, tableId: string, filterId: int) returns (r: Result<bool>)
      requires Valid()
      modifies this
      ensures Valid()
      ensures r == Success(true)
      ensures filters == old(filters)[(userId, tableId) := WithDefault(old(FiltersOf(userId, tableId)), filterId)]
      ensures presets == old(presets) && columnCustomizations == old(columnCustomizations)
      ensures fieldDefinitions == old(fieldDefinitions) && customFieldValues == old(customFieldValues)
    {
      var list := MarkDefault(FiltersOf(userId, tableId), filterId);
      filters := filters[(userId, tableId) := list];
      r := Success(true);
    }

    /** `GetDefaultPresetAsync`. */
    function DefaultPreset(userId: int, formId: string): (r: Option<FormPreset>)
      reads this
      ensures r.Some? ==> r.value in PresetsOf(userId, formId) && r.value.isDefault
    {
      FirstDefault(PresetsOf(userId, formId))
    }

    /** `GetDefaultFilterAsync`. */
    function DefaultFilter(userId: int, tableId: string): (r: Option<SavedFilter>)
      reads this
      ensures r.Some? ==> r.value in FiltersOf(userId, tableId) && r.value.isDefault
    {
      FirstDefault(FiltersOf(userId, tableId))
    }

    /** `SaveColumnCustomizationAsync`. */
    method SaveColumnCustomization(c: ColumnCustomization, now: int) returns (r: Result<bool>)
      requires Valid()
      modifies this
      ensures Valid()
      ensures r == Success(true)
      ensures columnCustomizations == old(columnCustomizations)[(c.userId, c.tableId) := UpsertColumn(old(ColumnsOf(c.userId, c.tableId)), c, now)]
      ensures presets == old(presets) && filters == old(filters)
      ensures fieldDefinitions == old(fieldDefinitions) && customFieldValues == old(customFieldValues)
    {
      columnCustomizations := columnCustomizations[(c.userId, c.tableId) := UpsertColumn(ColumnsOf(c.userId, c.tableId), c, now)];
      r := Success(true);
    }

    /** `ResetColumnCustomizationsAsync`: the table's list is emptied. */
    method ResetColumnCustomizations(userId: int, tableId: string) returns (r: Result<bool>)
      requires Valid()
      modifies this
      ensures Valid()
      ensures r == Success(true)
      ensures columnCustomizations == old(columnCustomizations)[(userId, tableId) := []]
      ensures presets == old(presets) && filters == old(filters)
      ensures fieldDefinitions == old(fieldDefinitions) && customFieldValues == old(customFieldValues)
    {
      columnCustomizations := columnCustomizations[(userId, tableId) := []];
      r := Success(true);
    }

    /** `GetCustomFieldValueAsync`. */
    function CustomFieldValue(userId: int, entityId: int, fieldName: string): (v: Option<string>)
      reads this
      ensures v.Some? ==> exists i :: (0 <= i < |customFieldValues| && customFieldValues[i].value == v
                                       && RowMatches(customFieldValues[i], fieldDefinitions, userId, entityId, fieldName))
    {
      ValueOf(customFieldValues, fieldDefinitions, userId, entityId, fieldName)
    }

    /** `SaveCustomFieldValueAsync`: fails with NotFound when the user has no
      * definition of that name for that entity type; otherwise the pair's row
      * takes the value or is inserted. */
    method SaveCustomFieldValue(userId: int, entityType: string, entityId: int, fieldName: string, value: Option<string>)
      returns (r: Result<bool>)
      requires Valid()
      modifies this
      ensures Valid()
      ensures DefinitionFor(fieldDefinitions, userId, entityType, fieldName).None? ==>
        r == Failure(NotFound("field definition")) && customFieldValues == old(customFieldValues)
      ensures DefinitionFor(fieldDefinitions, userId, entityType, fieldName).Some? ==>
        r == Success(true)
        && customFieldValues == UpsertValue(old(customFieldValues), entityId,
             DefinitionFor(fieldDefinitions, userId, entityType, fieldName).value.id, value)
      ensures presets == old(presets) && filters == old(filters) && columnCustomizations == old(columnCustomizations)
      ensures fieldDefinitions == old(fieldDefinitions)
    {
      match DefinitionFor(fieldDefinitions, userId, entityType, fieldName) {
        case None =>
          r := Failure(NotFound("field definition"));
        case Some(d) =>
          customFieldValues := UpsertValue(customFieldValues, entityId, d.id, value);
          r := Success(true);
      }
    }
  }

  /** The body of a preset or filter save on the loaded list. */
  method SaveInto<C>(items: seq<Saved<C>>, item: Saved<C>, now: int) returns (saved: Saved<C>, r: seq<Saved<C>>)
    ensures saved == SavedItem(items, item, now) && r == AfterSave(items, item, now)
  {
    saved := item;
    r := items;
    if item.id == 0 {
      saved := item.(id := NextId(items), createdAt := now);
      r := items + [saved];
    } else {
      var k := IndexOfId(items, item.id);
      if k.Some? {
        var existing := items[k.value];
        r := items[k.value := existing.(name := item.name, description := item.description,
                                        content := item.content, isDefault := item.isDefault)];
      }
    }
    if item.isDefault {
      r := ClearOtherDefaults(r, saved.id);
    }
  }
}
