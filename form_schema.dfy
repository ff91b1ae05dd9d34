// The parts of a form schema the form builder and the renderer read, and the
// values their input controls hold.

module FormSchemas {
  import opened Common
  import opened Text

  /** Per-field validation rules: length bounds, numeric bounds, a pattern and
    * a message that replaces the default one. */
  datatype ValidationSchema = ValidationSchema(
    min: Option<real>,
    max: Option<real>,
    minLength: Option<int>,
    maxLength: Option<int>,
    pattern: Option<string>,
    messageFa: Option<string>)

  /** A field of a form section. `ColumnSpan` is another name for `ColSpan`, so
    * one optional span stands for both. */
  datatype FieldSchema = FieldSchema(
    id: string,
    labelFa: string,
    fieldType: string,
    required: bool,
    visible: bool,
    colSpan: Option<int>,
    validation: Option<ValidationSchema>)

  datatype SectionSchema = SectionSchema(id: string, titleFa: string, columns: int, fields: Option<seq<FieldSchema>>)

  datatype FormSchema = FormSchema(id: string, sections: Option<seq<SectionSchema>>)

  /** What an input control hands back: the text of a text box, the tags ticked
    * in a multi-select list, a check box state, a whole number (a star rating)
    * or a date, carried as the text its `ToString()` gives. */
  datatype FormValue = Text(text: string) | Items(items: seq<string>) | Flag(flag: bool) | Whole(number: int) | Moment(shown: string)

  /** The type name a `List<string>` prints as. */
  const ListTypeName: string := "System.Collections.Generic." + "List`1[System.String]"

  /** `value.ToString()`. */
  function ValueText(v: FormValue): (r: string)
    ensures v.Text? ==> r == v.text
    ensures v.Items? ==> r == ListTypeName
  {
    match v
    case Text(s) => s
    case Items(_) => ListTypeName
    case Flag(b) => if b then "True" else "False"
    case Whole(n) => IntToString(n)
    case Moment(s) => s
  }

  /** Only a text value can print as blank: every other kind prints as a
    * non-blank text. */
  lemma BlankTextOnlyFromText(v: FormValue)
    ensures IsBlank(ValueText(v)) ==> v.Text? || v.Moment?
  {
    match v
    case Items(_) => assert ListTypeName[0] == 'S';
    case Flag(b) => assert !IsWhiteSpace(ValueText(v)[0]);
    case Whole(n) =>
      var s := IntToString(n);
      assert s[0] == '-' || IsDigit(s[0]);
      assert !IsWhiteSpace(s[0]);
    case Text(_) =>
    case Moment(_) =>
  }
}
