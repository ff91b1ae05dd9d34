// The schema-driven form builder: where each visible field of a section goes
// in the section's grid, which values the form hands back, and the errors its
// validation collects. Control creation and styling are not modelled.

module FormBuilders {
  import opened Common
  import opened Text
  import opened FormSchemas
  import opened Linq

  // ----------------------------------------------------------- section layout

  /** `Math.Max(1, section.Columns)`: a section has at least one grid column. */
  function ColumnCount(columns: int): (r: int)
    ensures r >= 1 && (columns >= 1 ==> r == columns)
  {
    if columns < 1 then 1 else columns
  }

  function IsVisibleField(f: FieldSchema): bool {
    f.visible
  }

  /** `Where(f => f.Visible)`: the visible fields of a section. */
  function VisibleFields(fields: seq<FieldSchema>): (r: seq<FieldSchema>)
    ensures |r| <= |fields|
    ensures forall f :: f in r <==> f in fields && f.visible
  {
    Where(fields, IsVisibleField)
  }

  /** The visible fields are taken in schema order and with their repetitions. */
  lemma VisibleFieldsInOrder(fields: seq<FieldSchema>)
    ensures IsSelection(VisibleFields(fields), fields, IsVisibleField)
  {
    WhereIsSelection(fields, IsVisibleField);
  }

  /** Where a field's control is placed: grid row, grid column, columns spanned. */
  datatype Placement = Placement(fieldId: string, row: int, col: int, span: int)

  /** The span a field gets at column `col`: a `ColSpan` above 1 is clipped to
    * the columns left in the row; otherwise the grid's default span of 1. */
  function SpanAt(f: FieldSchema, col: int, columns: int): int {
    var requested := f.colSpan.GetOr(1);
    if requested > 1 then (if requested < columns - col then requested else columns - col) else 1
  }

  /** The k-th visible field `f` of a grid with `columns` columns is placed at
    * `p`: row `k / columns`, column `k % columns`, spanning at least one
    * column and never past the last. */
  predicate PlacedAt(p: Placement, f: FieldSchema, k: int, columns: int) {
    && p.fieldId == f.id
    && 0 <= p.col < columns
    && p.row * columns + p.col == k
    && p.span == SpanAt(f, p.col, columns)
    && 1 <= p.span && p.col + p.span <= columns
  }

  lemma NextRow(row: int, columns: int)
    ensures (row + 1) * columns == row * columns + columns
  {
  }

  /** The rows counted when the next place is row `row`, column `col`, are
    * exactly enough for the `n` fields placed before it. */
  lemma RowsCover(rowCount: nat, row: nat, col: nat, columns: nat, n: nat)
    requires col < columns && row * columns + col == n
    requires rowCount == row + (if col > 0 then 1 else 0)
    ensures rowCount * columns >= n
    ensures rowCount > 0 ==> (rowCount - 1) * columns < n
  {
    if col > 0 {
      NextRow(row, columns);
    } else if rowCount > 0 {
      NextRow(row - 1, columns);
    }
  }

  /** `BuildSection`'s placement loop: the visible fields are placed row-major,
    * the column wrapping at the column count; a grid row is added whenever a
    * field lands in column 0. The k-th visible field lands in row `k / columns`
    * and column `k % columns`, never spans past the last column, and the rows
    * added are exactly enough for all the fields. */
  method LayoutSection(section: SectionSchema) returns (placements: seq<Placement>, rowCount: nat)
    ensures var visible := VisibleFields(section.fields.GetOr([])); var columns := ColumnCount(section.columns);
      |placements| == |visible|
      && (forall k :: 0 <= k < |visible| ==> PlacedAt(placements[k], visible[k], k, columns))
      && rowCount * columns >= |visible|
      && (rowCount > 0 ==> (rowCount - 1) * columns < |visible|)
  {
    var columns := ColumnCount(section.columns);
    var visible := VisibleFields(section.fields.GetOr([]));
    placements := [];
    rowCount := 0;
    var row, col := 0, 0;
    var i := 0;
    while i < |visible|
      invariant 0 <= i <= |visible| && |placements| == i
      invariant 0 <= row && 0 <= col < columns && row * columns + col == i
      invariant rowCount == row + (if col > 0 then 1 else 0)
      invariant forall k :: 0 <= k < i ==> PlacedAt(placements[k], visible[k], k, columns)
    {
      if col == 0 {
        rowCount := rowCount + 1;
      }
      placements := placements + [Placement(visible[i].id, row, col, SpanAt(visible[i], col, columns))];
      col := col + 1;
      if col >= columns {
        col := 0;
        NextRow(row, columns);
        row := row + 1;
      }
      i := i + 1;
    }
    RowsCover(rowCount, row, col, columns, i);
  }

  // ----------------------------------------------------------------- emptiness

  /** `IsEmpty`: null, a blank string and an empty list are empty; any other
    * value is not. */
  predicate IsEmpty(v: Option<FormValue>)
    ensures v.None? ==> IsEmpty(v)
    ensures v.Some? && v.value.Text? ==> (IsEmpty(v) <==> IsBlank(v.value.text))
    ensures v.Some? && v.value.Items? ==> (IsEmpty(v) <==> |v.value.items| == 0)
    ensures v.Some? && !v.value.Text? && !v.value.Items? ==> !IsEmpty(v)
  {
    match v
    case None => true
    case Some(Text(s)) => IsBlank(s)
    case Some(Items(l)) => |l| == 0
    case Some(_) => false
  }

  /** `IsValidNumber`: blank text passes; an "integer" field needs an `int`,
    * a "decimal" or "number" field a decimal, any other type passes. The type
    * is compared lower-cased. */
  function IsValidNumber(text: string, fieldType: string): (r: bool)
    ensures IsBlank(text) ==> r
    ensures ToLower(fieldType) !in {"integer", "decimal", "number"} ==> r
    ensures !IsBlank(text) && ToLower(fieldType) == "integer" ==> (r <==> ParseInt(text).Some?)
    ensures !IsBlank(text) && ToLower(fieldType) in {"decimal", "number"} ==> (r <==> ParseDecimal(text).Some?)
  {
    if IsBlank(text) then true
    else
      var t := ToLower(fieldType);
      if t == "integer" then ParseInt(text).Some?
      else if t == "decimal" || t == "number" then ParseDecimal(text).Some?
      else true
  }

  /** Every 32-bit integer, as printed, is a valid entry for an "integer", a
    * "decimal" and a "number" field, however the type is capitalised. */
  lemma PrintedIntegersAreValid(i: int, fieldType: string)
    requires Int32Min <= i <= Int32Max
    requires ToLower(fieldType) in {"integer", "decimal", "number"}
    ensures IsValidNumber(IntToString(i), fieldType)
  {
    ParseIntOfToString(i);
    ParseDecimalOfInt(i);
  }

  /** The field type is matched ignoring case, and blank text passes
    * whatever the type. */
  lemma IsValidNumberIgnoresTypeCase(text: string, fieldType: string)
    ensures IsValidNumber(text, ToUpper(fieldType)) == IsValidNumber(text, fieldType)
    ensures IsValidNumber(text, ToLower(fieldType)) == IsValidNumber(text, fieldType)
    ensures IsBlank(text) ==> IsValidNumber(text, fieldType)
  {
    CaseMappingsIdempotent(fieldType);
  }

  // --------------------------------------------------------------- validation

  /** One error of `ValidateForm`; the label is the field's Persian label. */
  datatype FormError =
    | Required(fieldLabel: string)
    | TooShort(fieldLabel: string, minLength: int)
    | TooLong(fieldLabel: string, maxLength: int)
    | BelowMin(fieldLabel: string, min: real)
    | AboveMax(fieldLabel: string, max: real)

  /** A required field fails when the form has no value for it or an empty one. */
  predicate Missing(values: map<string, Option<FormValue>>, id: string) {
    id !in values || IsEmpty(values[id])
  }

  /** The required error one field raises, if any. */
  function FieldRequiredErrors(f: FieldSchema, values: map<string, Option<FormValue>>): seq<FormError> {
    if f.required && Missing(values, f.id) then [Required(f.labelFa)] else []
  }

  /** The required-field errors of a section's fields, one per failing field, in order. */
  function RequiredErrors(fields: seq<FieldSchema>, values: map<string, Option<FormValue>>): (r: seq<FormError>)
    ensures |r| <= |fields|
    ensures forall e :: e in r ==> e.Required?
  {
    if fields == [] then []
    else RequiredErrors(fields[..|fields| - 1], values) + FieldRequiredErrors(fields[|fields| - 1], values)
  }

  /** The rule errors of one value text: the length checks always, the numeric
    * bounds only when the text parses as a decimal, `number` being what it
    * parses as. */
  function ValueChecks(fieldLabel: string, rules: ValidationSchema, text: string, number: Option<real>): seq<FormError> {
    LengthChecks(fieldLabel, rules, text) + NumberChecks(fieldLabel, rules, number)
  }

  function LengthChecks(fieldLabel: string, rules: ValidationSchema, text: string): seq<FormError> {
    (if rules.minLength.Some? && |text| < rules.minLength.value then [TooShort(fieldLabel, rules.minLength.value)] else [])
    + (if rules.maxLength.Some? && |text| > rules.maxLength.value then [TooLong(fieldLabel, rules.maxLength.value)] else [])
  }

  function NumberChecks(fieldLabel: string, rules: ValidationSchema, number: Option<real>): seq<FormError> {
    match number
    case None => []
    case Some(n) =>
      (if rules.min.Some? && n < rules.min.value then [BelowMin(fieldLabel, rules.min.value)] else [])
      + (if rules.max.Some? && n > rules.max.value then [AboveMax(fieldLabel, rules.max.value)] else [])
  }

  /** The rules a value text meets, stated on their own: within the length
    * bounds, and within the numeric bounds if it is a number. */
  predicate MeetsRules(rules: ValidationSchema, text: string, number: Option<real>) {
    (rules.minLength.Some? ==> |text| >= rules.minLength.value)
    && (rules.maxLength.Some? ==> |text| <= rules.maxLength.value)
    && (number.Some? && rules.min.Some? ==> number.value >= rules.min.value)
    && (number.Some? && rules.max.Some? ==> number.value <= rules.max.value)
  }

  /** The checks report nothing exactly when the rules are met; text that is
    * not a number can only fail the length checks; and no check reports twice. */
  lemma ValueChecksMeaning(fieldLabel: string, rules: ValidationSchema, text: string, number: Option<real>)
    ensures ValueChecks(fieldLabel, rules, text, number) == [] <==> MeetsRules(rules, text, number)
    ensures number.None? ==> forall e :: e in ValueChecks(fieldLabel, rules, text, number) ==> e.TooShort? || e.TooLong?
    ensures |ValueChecks(fieldLabel, rules, text, number)| <= 4
  {
  }

  /** The value a rule check reads: present and not null. */
  predicate HasValue(values: map<string, Option<FormValue>>, id: string) {
    id in values && values[id].Some?
  }

  /** The rule errors one field raises: none without rules or without a value. */
  function FieldRuleErrors(f: FieldSchema, values: map<string, Option<FormValue>>): seq<FormError> {
    if f.validation.Some? && HasValue(values, f.id)
    then
      var text := ValueText(values[f.id].value);
      ValueChecks(f.labelFa, f.validation.value, text, ParseDecimal(text))
    else []
  }

  /** The rule errors of a section's fields with rules, in order. */
  function RuleErrors(fields: seq<FieldSchema>, values: map<string, Option<FormValue>>): seq<FormError> {
    if fields == [] then []
    else RuleErrors(fields[..|fields| - 1], values) + FieldRuleErrors(fields[|fields| - 1], values)
  }

  /** A section's errors: first the required checks of all its fields, then the
    * rule checks; a section without a field list has none. */
  function SectionErrors(section: SectionSchema, values: map<string, Option<FormValue>>): seq<FormError> {
    match section.fields
    case None => []
    case Some(fields) => RequiredErrors(fields, values) + RuleErrors(fields, values)
  }

  /** The errors of the sections, section by section. */
  function SectionsErrors(sections: seq<SectionSchema>, values: map<string, Option<FormValue>>): seq<FormError> {
    if sections == [] then []
    else SectionsErrors(sections[..|sections| - 1], values) + SectionErrors(sections[|sections| - 1], values)
  }

  /** What `ValidateForm` collects; no section list means no errors. */
  function FormErrors(schema: FormSchema, values: map<string, Option<FormValue>>): seq<FormError> {
    match schema.sections
    case None => []
    case Some(sections) => SectionsErrors(sections, values)
  }

  /** A required field has a value that is not empty. */
  predicate RequiredHolds(f: FieldSchema, values: map<string, Option<FormValue>>) {
    f.required ==> !Missing(values, f.id)
  }

  /** A field with rules and a value has a value whose text meets the rules. */
  predicate RulesHold(f: FieldSchema, values: map<string, Option<FormValue>>) {
    f.validation.Some? && HasValue(values, f.id) ==>
      var text := ValueText(values[f.id].value);
      MeetsRules(f.validation.value, text, ParseDecimal(text))
  }

  /** A field is satisfied when both of its checks hold. */
  predicate FieldSatisfied(f: FieldSchema, values: map<string, Option<FormValue>>) {
    RequiredHolds(f, values) && RulesHold(f, values)
  }

  /** A section is satisfied when it has no field list or all its fields are. */
  predicate SectionSatisfied(section: SectionSchema, values: map<string, Option<FormValue>>) {
    section.fields.None? || forall j :: 0 <= j < |section.fields.value| ==> FieldSatisfied(section.fields.value[j], values)
  }

  lemma {:induction false} RequiredErrorsEmpty(fields: seq<FieldSchema>, values: map<string, Option<FormValue>>)
    ensures RequiredErrors(fields, values) == [] <==> forall j :: 0 <= j < |fields| ==> RequiredHolds(fields[j], values)
    decreases |fields|
  {
    if fields != [] {
      var init := fields[..|fields| - 1];
      RequiredErrorsEmpty(init, values);
      assert forall j :: 0 <= j < |init| ==> init[j] == fields[j];
    }
  }

  /** Every element of the list satisfies `p`, checked last element first. */
  predicate AllHold<T>(s: seq<T>, p: T -> bool) {
    s == [] || (AllHold(s[..|s| - 1], p) && p(s[|s| - 1]))
  }

  lemma {:induction false} AllHoldIff<T>(s: seq<T>, p: T -> bool)
    ensures AllHold(s, p) <==> forall j :: 0 <= j < |s| ==> p(s[j])
    decreases |s|
  {
    if s != [] {
      var init := s[..|s| - 1];
      AllHoldIff(init, p);
      assert forall j :: 0 <= j < |init| ==> init[j] == s[j];
    }
  }

  lemma RuleErrorsEmpty(fields: seq<FieldSchema>, values: map<string, Option<FormValue>>)
    ensures RuleErrors(fields, values) == [] <==> forall j :: 0 <= j < |fields| ==> RulesHold(fields[j], values)
  {
    RuleErrorsAllHold(fields, values);
    AllHoldIff(fields, f => RulesHold(f, values));
  }

  lemma {:induction false} RuleErrorsAllHold(fields: seq<FieldSchema>, values: map<string, Option<FormValue>>)
    ensures RuleErrors(fields, values) == [] <==> AllHold(fields, f => RulesHold(f, values))
    decreases |fields|
  {
    if fields != [] {
      RuleErrorsAllHold(fields[..|fields| - 1], values);
      FieldRuleErrorsEmpty(fields[|fields| - 1], values);
    }
  }

  lemma FieldRuleErrorsEmpty(f: FieldSchema, values: map<string, Option<FormValue>>)
    ensures FieldRuleErrors(f, values) == [] <==> RulesHold(f, values)
  {
    if f.validation.Some? && HasValue(values, f.id) {
      var text := ValueText(values[f.id].value);
      ValueChecksMeaning(f.labelFa, f.validation.value, text, ParseDecimal(text));
    }
  }

  lemma SectionErrorsEmpty(section: SectionSchema, values: map<string, Option<FormValue>>)
    ensures SectionErrors(section, values) == [] <==> SectionSatisfied(section, values)
  {
    if section.fields.Some? {
      RequiredErrorsEmpty(section.fields.value, values);
      RuleErrorsEmpty(section.fields.value, values);
    }
  }

  lemma {:induction false} SectionsErrorsEmpty(sections: seq<SectionSchema>, values: map<string, Option<FormValue>>)
    ensures SectionsErrors(sections, values) == [] <==> forall i :: 0 <= i < |sections| ==> SectionSatisfied(sections[i], values)
    decreases |sections|
  {
    if sections != [] {
      var init := sections[..|sections| - 1];
      SectionsErrorsEmpty(init, values);
      SectionErrorsEmpty(sections[|sections| - 1], values);
      assert forall i :: 0 <= i < |init| ==> init[i] == sections[i];
    }
  }

  /** The form is valid exactly when every field of every section with a field
    * list is satisfied. */
  lemma FormValidIff(schema: FormSchema, values: map<string, Option<FormValue>>)
    ensures FormErrors(schema, values) == [] <==>
      schema.sections.None? || forall i :: 0 <= i < |schema.sections.value| ==> SectionSatisfied(schema.sections.value[i], values)
  {
    if schema.sections.Some? {
      SectionsErrorsEmpty(schema.sections.value, values);
    }
  }

  /** A required field without a value makes its section report a required
    * error carrying its label. */
  lemma {:induction false} MissingRequiredFieldReported(fields: seq<FieldSchema>, values: map<string, Option<FormValue>>, j: int)
    requires 0 <= j < |fields| && fields[j].required && Missing(values, fields[j].id)
    ensures Required(fields[j].labelFa) in RequiredErrors(fields, values)
    decreases |fields|
  {
    var init := fields[..|fields| - 1];
    if j < |fields| - 1 {
      assert init[j] == fields[j];
      MissingRequiredFieldReported(init, values, j);
    }
  }

  // ---------------------------------------------------------------- the builder

  /** `GetFormValues`: every control's value, then every stored special value
    * (a star rating), which wins over the control's own. */
  function MergedValues(controls: map<string, Option<FormValue>>, special: map<string, FormValue>): (r: map<string, Option<FormValue>>)
    ensures r.Keys == controls.Keys + special.Keys
    ensures forall k :: k in special ==> r[k] == Some(special[k])
    ensures forall k :: k in controls && k !in special ==> r[k] == controls[k]
  {
    map k | k in controls.Keys + special.Keys :: if k in special then Some(special[k]) else controls[k]
  }

  /** The builder's state after `BuildForm`: the value each built control reads
    * back (a star-rating panel reads back null), and the stored special values. */
  class DynamicFormBuilder {
    var fieldControls: map<string, Option<FormValue>>
    var fieldValues: map<string, FormValue>

    constructor(controls: map<string, Option<FormValue>>)
      ensures fieldControls == controls && fieldValues == map[]
    {
      fieldControls := controls;
      fieldValues := map[];
    }

    /** A click on star `index` of a rating field stores the rating. */
    method Rate(fieldId: string, index: int)
      requires 1 <= index <= 5
      modifies this`fieldValues
      ensures fieldValues == old(fieldValues)[fieldId := Whole(index)]
      ensures GetFormValues()[fieldId] == Some(Whole(index))
    {
      fieldValues := fieldValues[fieldId := Whole(index)];
    }

    function GetFormValues(): (r: map<string, Option<FormValue>>)
      reads this
      ensures r == MergedValues(fieldControls, fieldValues)
    {
      MergedValues(fieldControls, fieldValues)
    }

    /** `ValidateForm`: walks the sections, collecting first the required errors
      * and then the rule errors of each; valid when nothing was collected. */
    method ValidateForm(schema: FormSchema) returns (isValid: bool, errors: seq<FormError>)
      ensures errors == FormErrors(schema, GetFormValues())
      ensures isValid <==> errors == []
    {
      var values := GetFormValues();
      errors := [];
      if schema.sections.None? {
        return true, errors;
      }
      var sections := schema.sections.value;
      var i := 0;
      while i < |sections|
        invariant 0 <= i <= |sections|
        invariant errors == SectionsErrors(sections[..i], values)
      {
        assert sections[..i + 1][..i] == sections[..i];
        var found := CheckSection(sections[i], values);
        errors := errors + found;
        i := i + 1;
      }
      assert sections[..|sections|] == sections;
      isValid := |errors| == 0;
    }
  }

  /** One section's checks: nothing without a field list, else the required
    * loop and then the rule loop. */
  method CheckSection(section: SectionSchema, values: map<string, Option<FormValue>>) returns (errors: seq<FormError>)
    ensures errors == SectionErrors(section, values)
  {
    errors := [];
    if section.fields.Some? {
      var required := CollectRequired(section.fields.value, values);
      var rules := CollectRules(section.fields.value, values);
      errors := required + rules;
    }
  }

  /** The required-field loop of one section. */
  method CollectRequired(fields: seq<FieldSchema>, values: map<string, Option<FormValue>>) returns (errors: seq<FormError>)
    ensures errors == RequiredErrors(fields, values)
  {
    errors := [];
    var j := 0;
    while j < |fields|
      invariant 0 <= j <= |fields|
      invariant errors == RequiredErrors(fields[..j], values)
    {
      assert fields[..j + 1][..j] == fields[..j];
      var f := fields[j];
      if f.required && (f.id !in values || IsEmpty(values[f.id])) {
        errors := errors + [Required(f.labelFa)];
      }
      j := j + 1;
    }
    assert fields[..|fields|] == fields;
  }

  /** The rule loop of one section. */
  method CollectRules(fields: seq<FieldSchema>, values: map<string, Option<FormValue>>) returns (errors: seq<FormError>)
    ensures errors == RuleErrors(fields, values)
  {
    errors := [];
    var j := 0;
    while j < |fields|
      invariant 0 <= j <= |fields|
      invariant errors == RuleErrors(fields[..j], values)
    {
      assert fields[..j + 1][..j] == fields[..j];
      var f := fields[j];
      if f.validation.Some? && f.id in values && values[f.id].Some? {
        var text := ValueText(values[f.id].value);
        var number := ParseDecimal(text);
        var found := CheckValue(f.labelFa, f.validation.value, text, number);
        errors := errors + found;
      }
      j := j + 1;
    }
    assert fields[..|fields|] == fields;
  }

  /** The checks of one value against its field's rules, one after another. */
  method CheckValue(fieldLabel: string, rules: ValidationSchema, text: string, number: Option<real>) returns (found: seq<FormError>)
    ensures found == ValueChecks(fieldLabel, rules, text, number)
  {
    found := [];
    if rules.minLength.Some? && |text| < rules.minLength.value {
      found := found + [TooShort(fieldLabel, rules.minLength.value)];
    }
    if rules.maxLength.Some? && |text| > rules.maxLength.value {
      found := found + [TooLong(fieldLabel, rules.maxLength.value)];
    }
    assert found == LengthChecks(fieldLabel, rules, text);
    if number.Some? {
      if rules.min.Some? && number.value < rules.min.value {
        found := found + [BelowMin(fieldLabel, rules.min.value)];
      }
      if rules.max.Some? && number.value > rules.max.value {
        found := found + [AboveMax(fieldLabel, rules.max.value)];
      }
    }
  }
}
