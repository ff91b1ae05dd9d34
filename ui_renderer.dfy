// The schema renderer's section layout and its form validation. The Regex
// match of a field's pattern is a function parameter; the WPF controls and
// error labels it creates are not modelled.

module UIRenderers {
  import opened Common
  import opened Text
  import opened FormSchemas

  // ----------------------------------------------------------- section layout

  /** How far the column moves past a field: its `ColSpan` when above 1,
    * otherwise one column. */
  function Step(f: FieldSchema): (r: int)
    ensures r >= 1
  {
    if f.colSpan.GetOr(1) > 1 then f.colSpan.GetOr(1) else 1
  }

  /** Where a field's element is placed; `span` is set only for a `ColSpan`
    * above 1, and is not clipped to the grid. */
  datatype Slot = Slot(fieldId: string, row: int, col: int, span: Option<int>)

  /** The slot after one at (`row`, `col`) holding a field of step `step`: the
    * column moves on by the step, and wraps to the next row once it reaches
    * the column count. */
  predicate Follows(next: Slot, prev: Slot, step: int, columns: int) {
    if prev.col + step >= columns then next.row == prev.row + 1 && next.col == 0
    else next.row == prev.row && next.col == prev.col + step
  }

  /** The slot of field `f`: its id, the span it asked for when above 1, and
    * a column inside the grid (column 0 when the grid is narrower). */
  predicate SlotOf(s: Slot, f: FieldSchema, columns: int) {
    s.fieldId == f.id
    && s.span == (if f.colSpan.GetOr(1) > 1 then f.colSpan else None)
    && 0 <= s.col && (s.col == 0 || s.col < columns)
  }

  /** `RenderSection`'s placement loop over every field of the section (hidden
    * ones too). The first field sits at row 0, column 0; each next one
    * follows its predecessor by the predecessor's span; every field starts
    * inside the grid; and the rows defined are exactly the rows used, the
    * test `RowDefinitions.Count <= row` never adding one. */
  method LayoutFields(fields: seq<FieldSchema>, columns: int) returns (slots: seq<Slot>, rowCount: nat)
    ensures |slots| == |fields|
    ensures forall k :: 0 <= k < |fields| ==> SlotOf(slots[k], fields[k], columns)
    ensures |fields| > 0 ==> slots[0].row == 0 && slots[0].col == 0
    ensures forall k :: 0 < k < |fields| ==> Follows(slots[k], slots[k - 1], Step(fields[k - 1]), columns)
    ensures rowCount == if |fields| == 0 then 0 else slots[|fields| - 1].row + 1
  {
    slots := [];
    rowCount := 0;
    var row, col := 0, 0;
    var i := 0;
    while i < |fields|
      invariant 0 <= i <= |fields| && |slots| == i
      invariant 0 <= row && 0 <= col && (col == 0 || col < columns)
      invariant rowCount == row + (if col > 0 then 1 else 0)
      invariant i == 0 ==> row == 0 && col == 0
      invariant i > 0 ==> Follows(Slot("", row, col, None), slots[i - 1], Step(fields[i - 1]), columns)
      invariant forall k :: 0 <= k < i ==> SlotOf(slots[k], fields[k], columns)
      invariant i > 0 ==> slots[0].row == 0 && slots[0].col == 0
      invariant forall k :: 0 < k < i ==> Follows(slots[k], slots[k - 1], Step(fields[k - 1]), columns)
    {
      if col == 0 || rowCount <= row {
        rowCount := rowCount + 1;
      }
      var f := fields[i];
      var requested := f.colSpan.GetOr(1);
      slots := slots + [Slot(f.id, row, col, if requested > 1 then Some(requested) else None)];
      if requested > 1 {
        col := col + requested;
      } else {
        col := col + 1;
      }
      if col >= columns {
        col := 0;
        row := row + 1;
      }
      i := i + 1;
    }
  }

  /** In a row, each field starts where the one before it ends: fields of one
    * row neither overlap nor leave gaps. */
  lemma SameRowIsAdjacent(slots: seq<Slot>, fields: seq<FieldSchema>, columns: int, k: int)
    requires |slots| == |fields| && 0 < k < |fields|
    requires forall j :: 0 < j < |fields| ==> Follows(slots[j], slots[j - 1], Step(fields[j - 1]), columns)
    requires slots[k].row == slots[k - 1].row
    ensures slots[k].col == slots[k - 1].col + Step(fields[k - 1])
    ensures slots[k - 1].col + Step(fields[k - 1]) < columns
  {
    assert Follows(slots[k], slots[k - 1], Step(fields[k - 1]), columns);
  }

  /** Rows never go back, and a field moves to a later row only at column 0. */
  lemma {:induction false} RowsNeverGoBack(slots: seq<Slot>, fields: seq<FieldSchema>, columns: int, j: int, k: int)
    requires |slots| == |fields| && 0 <= j <= k < |fields|
    requires forall m :: 0 < m < |fields| ==> Follows(slots[m], slots[m - 1], Step(fields[m - 1]), columns)
    ensures slots[j].row <= slots[k].row
    ensures slots[j].row < slots[k].row ==> exists m :: j < m <= k && slots[m].col == 0
    decreases k - j
  {
    if j < k {
      RowsNeverGoBack(slots, fields, columns, j, k - 1);
      assert Follows(slots[k], slots[k - 1], Step(fields[k - 1]), columns);
      if slots[j].row < slots[k].row && slots[j].row == slots[k - 1].row {
        assert slots[k].col == 0;
      }
    }
  }

  /** The grid a section renders to: its column definitions and its slots. */
  datatype SectionGrid = SectionGrid(columnCount: nat, slots: seq<Slot>, rowCount: nat)

  /** The renderer's registry of rendered field elements, by field id. */
  class UIRendererEngine {
    var fieldElements: map<string, Slot>

    constructor()
      ensures fieldElements == map[]
    {
      fieldElements := map[];
    }

    /** `RenderSection`: a section without a field list throws; otherwise
      * `Columns` column definitions (none when it is not positive), the laid
      * out fields, each registered under its id, a later field of the same id
      * replacing an earlier one. */
    method RenderSection(section: SectionSchema) returns (r: Result<SectionGrid>)
      modifies this`fieldElements
      ensures section.fields.None? <==> r.Failure?
      ensures section.fields.None? ==> fieldElements == old(fieldElements)
      ensures r.Success? ==>
        r.value.columnCount == (if section.columns > 0 then section.columns else 0)
        && |r.value.slots| == |section.fields.value|
        && (forall k :: 0 <= k < |section.fields.value| ==> r.value.slots[k].fieldId == section.fields.value[k].id)
        && fieldElements == RegistryAfter(old(fieldElements), section.fields.value, r.value.slots)
    {
      if section.fields.None? {
        return Failure(Custom("NullReferenceException", "section fields"));
      }
      var fields := section.fields.value;
      var slots, rowCount := LayoutFields(fields, section.columns);
      Register(fields, slots);
      r := Success(SectionGrid(if section.columns > 0 then section.columns else 0, slots, rowCount));
    }

    /** `_fieldElements[field.Id] = fieldElement` for each field in turn. */
    method Register(fields: seq<FieldSchema>, slots: seq<Slot>)
      requires |slots| == |fields|
      modifies this`fieldElements
      ensures fieldElements == RegistryAfter(old(fieldElements), fields, slots)
    {
      var i := 0;
      while i < |fields|
        invariant 0 <= i <= |fields|
        invariant fieldElements == RegistryAfter(old(fieldElements), fields[..i], slots[..i])
      {
        assert fields[..i + 1][..i] == fields[..i] && slots[..i + 1][..i] == slots[..i];
        fieldElements := fieldElements[fields[i].id := slots[i]];
        i := i + 1;
      }
      assert fields[..i] == fields && slots[..i] == slots;
    }
  }

  /** The registry `before` after registering each field's slot under its id,
    * in order. */
  function RegistryAfter(before: map<string, Slot>, fields: seq<FieldSchema>, slots: seq<Slot>): map<string, Slot>
    requires |slots| == |fields|
  {
    if fields == [] then before
    else RegistryAfter(before, fields[..|fields| - 1], slots[..|slots| - 1])[fields[|fields| - 1].id := slots[|slots| - 1]]
  }

  /** The registered ids are the old ones and those of the fields. */
  lemma {:induction false} RegistryKeys(before: map<string, Slot>, fields: seq<FieldSchema>, slots: seq<Slot>)
    requires |slots| == |fields|
    ensures RegistryAfter(before, fields, slots).Keys == before.Keys + (set k | 0 <= k < |fields| :: fields[k].id)
    decreases |fields|
  {
    if fields != [] {
      var n := |fields| - 1;
      RegistryKeys(before, fields[..n], slots[..n]);
      assert (set k | 0 <= k < |fields| :: fields[k].id) == (set k | 0 <= k < n :: fields[..n][k].id) + {fields[n].id};
    }
  }

  /** A field that no later field of the same id follows keeps its own slot. */
  lemma {:induction false} RegistryLastWins(before: map<string, Slot>, fields: seq<FieldSchema>, slots: seq<Slot>, k: int)
    requires |slots| == |fields| && 0 <= k < |fields|
    requires forall m :: k < m < |fields| ==> fields[m].id != fields[k].id
    ensures fields[k].id in RegistryAfter(before, fields, slots)
    ensures RegistryAfter(before, fields, slots)[fields[k].id] == slots[k]
    decreases |fields|
  {
    var n := |fields| - 1;
    if k < n {
      assert fields[..n][k] == fields[k] && slots[..n][k] == slots[k];
      RegistryLastWins(before, fields[..n], slots[..n], k);
    }
  }

  /** An id no field carries keeps its old slot. */
  lemma {:induction false} RegistryKeepsOthers(before: map<string, Slot>, fields: seq<FieldSchema>, slots: seq<Slot>, id: string)
    requires |slots| == |fields| && id in before
    requires forall k :: 0 <= k < |fields| ==> fields[k].id != id
    ensures id in RegistryAfter(before, fields, slots) && RegistryAfter(before, fields, slots)[id] == before[id]
    decreases |fields|
  {
    if fields != [] {
      var n := |fields| - 1;
      assert fields[n].id != id;
      RegistryKeepsOthers(before, fields[..n], slots[..n], id);
    }
  }

  // ---------------------------------------------------------------- validation

  /** The checks of `ValidateFieldValue`, in the order it runs them. */
  datatype Check = MinLengthCheck | MaxLengthCheck | MinCheck | MaxCheck | PatternCheck

  function Rank(c: Check): nat {
    match c
    case MinLengthCheck => 0
    case MaxLengthCheck => 1
    case MinCheck => 2
    case MaxCheck => 3
    case PatternCheck => 4
  }

  /** Whether one check fails on a value's text; `number` is what the text
    * parses to as a decimal, and `matches` is the Regex test. */
  predicate Fails(c: Check, rules: ValidationSchema, text: string, number: Option<real>, matches: (string, string) -> bool) {
    match c
    case MinLengthCheck => rules.minLength.Some? && |text| < rules.minLength.value
    case MaxLengthCheck => rules.maxLength.Some? && |text| > rules.maxLength.value
    case MinCheck => rules.min.Some? && number.Some? && number.value < rules.min.value
    case MaxCheck => rules.max.Some? && number.Some? && number.value > rules.max.value
    case PatternCheck => rules.pattern.Some? && rules.pattern.value != "" && !matches(text, rules.pattern.value)
  }

  /** The early-return chain of `ValidateFieldValue`: the first check that fails. */
  function FirstFailing(rules: ValidationSchema, text: string, number: Option<real>, matches: (string, string) -> bool)
    : (r: Option<Check>)
    ensures r.Some? ==> Fails(r.value, rules, text, number, matches)
    ensures r.None? ==> !Fails(MinLengthCheck, rules, text, number, matches) && !Fails(PatternCheck, rules, text, number, matches)
  {
    if rules.minLength.Some? && |text| < rules.minLength.value then Some(MinLengthCheck)
    else if rules.maxLength.Some? && |text| > rules.maxLength.value then Some(MaxLengthCheck)
    else if rules.min.Some? && number.Some? && number.value < rules.min.value then Some(MinCheck)
    else if rules.max.Some? && number.Some? && number.value > rules.max.value then Some(MaxCheck)
    else if rules.pattern.Some? && rules.pattern.value != "" && !matches(text, rules.pattern.value) then Some(PatternCheck)
    else None
  }

  /** The check reported is one that fails, and every check run before it
    * passed; nothing is reported exactly when every check passes. */
  lemma FirstFailingIsFirst(rules: ValidationSchema, text: string, number: Option<real>, matches: (string, string) -> bool)
    ensures FirstFailing(rules, text, number, matches).Some? ==>
      var c := FirstFailing(rules, text, number, matches).value;
      Fails(c, rules, text, number, matches)
      && forall d: Check :: Rank(d) < Rank(c) ==> !Fails(d, rules, text, number, matches)
    ensures FirstFailing(rules, text, number, matches).None? <==> forall d: Check :: !Fails(d, rules, text, number, matches)
  {
    if FirstFailing(rules, text, number, matches).None? {
      forall d: Check ensures !Fails(d, rules, text, number, matches) {
        match d
        case MinLengthCheck =>
        case MaxLengthCheck =>
        case MinCheck =>
        case MaxCheck =>
        case PatternCheck =>
      }
    }
  }

  /** The default message of a failing check. */
  function DefaultMessage(fieldLabel: string, c: Check, rules: ValidationSchema): (r: string)
    ensures |r| > |fieldLabel|
  {
    match c
    case MinLengthCheck => fieldLabel + " must be at least " + IntToString(rules.minLength.GetOr(0)) + " characters"
    case MaxLengthCheck => fieldLabel + " must be at most " + IntToString(rules.maxLength.GetOr(0)) + " characters"
    case MinCheck => fieldLabel + " is below the minimum"
    case MaxCheck => fieldLabel + " is above the maximum"
    case PatternCheck => fieldLabel + " is not in the right format"
  }

  /** `ValidateFieldValue`: no rules, or no failing check, gives null; else
    * the field's own message when it has one, the default one otherwise. */
  function FieldValueError(f: FieldSchema, text: string, matches: (string, string) -> bool): (r: Option<string>)
    ensures r.Some? ==> f.validation.Some?
    ensures r.Some? && f.validation.value.messageFa.Some? ==> r.value == f.validation.value.messageFa.value
    ensures r.Some? && f.validation.value.messageFa.None? ==> |r.value| > |f.labelFa|
  {
    match f.validation
    case None => None
    case Some(rules) =>
      match FirstFailing(rules, text, ParseDecimal(text), matches)
      case None => None
      case Some(c) => Some(rules.messageFa.GetOr(DefaultMessage(f.labelFa, c, rules)))
  }

  /** The message of a required field left blank. */
  function RequiredMessage(fieldLabel: string): string {
    fieldLabel + " is required"
  }

  /** The renderer's emptiness test: null, or a value whose text is blank. */
  predicate BlankValue(v: Option<FormValue>) {
    v.None? || IsBlank(ValueText(v.value))
  }

  /** The messages one field adds: the required message alone when a required
    * field is blank (its rules are then skipped); otherwise the rule message,
    * unless it is null or empty. */
  function FieldMessages(f: FieldSchema, v: Option<FormValue>, matches: (string, string) -> bool): seq<string> {
    if f.required && BlankValue(v) then [RequiredMessage(f.labelFa)]
    else if f.validation.Some? && v.Some? then
      match FieldValueError(f, ValueText(v.value), matches)
      case Some(m) => if m != "" then [m] else []
      case None => []
    else []
  }

  /** The value of a field, null when the form has no element for it. */
  function ValueOf(values: map<string, Option<FormValue>>, id: string): Option<FormValue> {
    if id in values then values[id] else None
  }

  /** Every message `ValidateForm` collects, field by field. */
  function FormMessages(fields: seq<FieldSchema>, values: map<string, Option<FormValue>>, matches: (string, string) -> bool): seq<string> {
    if fields == [] then []
    else
      var f := fields[|fields| - 1];
      FormMessages(fields[..|fields| - 1], values, matches) + FieldMessages(f, ValueOf(values, f.id), matches)
  }

  /** `ValidateForm` over the fields of the form's schema: it fails exactly
    * when a message was collected, with a validation error listing the
    * messages one per line. */
  method ValidateForm(fields: seq<FieldSchema>, values: map<string, Option<FormValue>>, matches: (string, string) -> bool)
    returns (r: Result<bool>, errors: seq<string>)
    ensures errors == FormMessages(fields, values, matches)
    ensures r.Failure? <==> errors != []
    ensures r.Failure? ==> r.error == Validation(Join(errors, "\n"))
    ensures r.Success? ==> r.value
  {
    errors := CollectMessages(fields, values, matches);
    if |errors| > 0 {
      r := Failure(Validation(Join(errors, "\n")));
    } else {
      r := Success(true);
    }
  }

  /** The loop of `ValidateForm` over the fields. */
  method CollectMessages(fields: seq<FieldSchema>, values: map<string, Option<FormValue>>, matches: (string, string) -> bool)
    returns (errors: seq<string>)
    ensures errors == FormMessages(fields, values, matches)
  {
    errors := [];
    var i := 0;
    while i < |fields|
      invariant 0 <= i <= |fields|
      invariant errors == FormMessages(fields[..i], values, matches)
    {
      assert fields[..i + 1][..i] == fields[..i];
      var f := fields[i];
      var value := if f.id in values then values[f.id] else None;
      var messages := ValidateField(f, value, matches);
      errors := errors + messages;
      i := i + 1;
    }
    assert fields[..|fields|] == fields;
  }

  /** One step of `ValidateForm`: the messages of one field. */
  method ValidateField(f: FieldSchema, value: Option<FormValue>, matches: (string, string) -> bool)
    returns (messages: seq<string>)
    ensures messages == FieldMessages(f, value, matches)
  {
    messages := [];
    if f.required && (value.None? || IsBlank(ValueText(value.value))) {
      messages := [RequiredMessage(f.labelFa)];
    } else if f.validation.Some? && value.Some? {
      var message := FieldValueError(f, ValueText(value.value), matches);
      if message.Some? && message.value != "" {
        messages := [message.value];
      }
    }
  }

  /** A required field left blank adds only its required message: none of its
    * rules is checked. */
  lemma RequiredShortCircuits(f: FieldSchema, v: Option<FormValue>, matches: (string, string) -> bool)
    requires f.required && BlankValue(v)
    ensures FieldMessages(f, v, matches) == [RequiredMessage(f.labelFa)]
  {
  }

  /** A field passing every check adds nothing, and a field whose rules carry
    * an empty message adds nothing whatever fails. */
  lemma SilentFields(f: FieldSchema, v: Option<FormValue>, matches: (string, string) -> bool)
    requires !(f.required && BlankValue(v))
    ensures v.Some? && f.validation.Some?
      && (forall d: Check :: !Fails(d, f.validation.value, ValueText(v.value), ParseDecimal(ValueText(v.value)), matches))
      ==> FieldMessages(f, v, matches) == []
    ensures f.validation.Some? && f.validation.value.messageFa == Some("") ==> FieldMessages(f, v, matches) == []
  {
    if v.Some? && f.validation.Some? {
      var text := ValueText(v.value);
      FirstFailingIsFirst(f.validation.value, text, ParseDecimal(text), matches);
    }
  }

  /** A field that is not required, or not blank, and fails a check without a
    * message of its own adds the default message of the first failing check. */
  lemma FailingFieldReported(f: FieldSchema, v: Option<FormValue>, matches: (string, string) -> bool, c: Check)
    requires !(f.required && BlankValue(v)) && v.Some? && f.validation.Some? && f.validation.value.messageFa.None?
    requires var text := ValueText(v.value); Fails(c, f.validation.value, text, ParseDecimal(text), matches)
    ensures |FieldMessages(f, v, matches)| == 1
    ensures var text := ValueText(v.value); var first := FirstFailing(f.validation.value, text, ParseDecimal(text), matches);
      first.Some? && Rank(first.value) <= Rank(c)
      && FieldMessages(f, v, matches) == [DefaultMessage(f.labelFa, first.value, f.validation.value)]
  {
    var text := ValueText(v.value);
    FailingValueReported(f, text, matches, c);
    var m := DefaultMessage(f.labelFa, FirstFailing(f.validation.value, text, ParseDecimal(text), matches).value, f.validation.value);
    assert m != "";
  }

  /** The same for `ValidateFieldValue` on the field's text. */
  lemma FailingValueReported(f: FieldSchema, text: string, matches: (string, string) -> bool, c: Check)
    requires f.validation.Some? && f.validation.value.messageFa.None?
    requires Fails(c, f.validation.value, text, ParseDecimal(text), matches)
    ensures var first := FirstFailing(f.validation.value, text, ParseDecimal(text), matches);
      first.Some? && Rank(first.value) <= Rank(c)
      && FieldValueError(f, text, matches) == Some(DefaultMessage(f.labelFa, first.value, f.validation.value))
  {
    FirstFailingIsFirst(f.validation.value, text, ParseDecimal(text), matches);
  }

  /** Where the renderer and the builder disagree on a required field: every
    * value the renderer finds blank, other than a date, the builder finds
    * empty too; but an empty multi-select list, empty to the builder, prints
    * as its type name and so passes the renderer's test. */
  lemma RendererAndBuilderEmptiness(v: FormValue)
    ensures !v.Moment? && BlankValue(Some(v)) ==> v.Text? && IsBlank(v.text)
    ensures !BlankValue(Some(Items([])))
  {
    BlankTextOnlyFromText(v);
    BlankTextOnlyFromText(Items([]));
  }
}
