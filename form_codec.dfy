/** The description flag codec (`utils/form.ts`). A form stores its two flags
    inside its free-text description as `"Visible: b, ReadOnly: b"`; the
    readers recover them by substring search. */
module FormCodec {
  import opened Wrappers
  import opened Strings
  import opened FormsSlice

  /** `FormValues`: what the form modal edits. */
  datatype FormValues = FormValues(title: string, isVisible: bool, isReadOnly: bool)

  /** `Partial<Form>`: every property may be missing. */
  datatype PartialForm = PartialForm(
    id: Option<string>, title: Option<string>, description: Option<string>, createdAt: Option<string>)

  datatype FlagProperty = IsVisible | IsReadOnly

  /** `DEFAULT_FORM_VALUES`. */
  const DefaultFormValues := FormValues("", true, false)

  /** A whole stored form, seen as a `Partial<Form>`. */
  function AsPartial(f: Form): PartialForm
  {
    PartialForm(Some(f.id), Some(f.title), Some(f.description), Some(f.createdAt))
  }

  /** `s || ''` on an optional string. */
  function OrEmpty(s: Option<string>): string
  {
    if s.Some? then s.value else ""
  }

  /** `!form?.id`: no form, no id, or the empty id. */
  predicate LacksId(form: Option<PartialForm>)
  {
    form.None? || form.value.id.None? || form.value.id.value == ""
  }

  /** A boolean in a template string. */
  function BoolText(b: bool): string
  {
    if b then "true" else "false"
  }

  function PropertyName(property: FlagProperty): string
  {
    if property == IsVisible then "Visible" else "ReadOnly"
  }

  /** `parseDescriptionProperty`. */
  predicate ParseDescriptionProperty(description: string, property: FlagProperty)
  {
    if description == [] then property == IsVisible
    else Contains(description, PropertyName(property) + ": true")
  }

  /** `generateFormDescription`. */
  function GenerateFormDescription(values: FormValues): string
  {
    "Visible: " + BoolText(values.isVisible) + ", ReadOnly: " + BoolText(values.isReadOnly)
  }

  /** `getInitialFormValues`. */
  function GetInitialFormValues(form: Option<PartialForm>): FormValues
  {
    if LacksId(form) then DefaultFormValues
    else
      var description := OrEmpty(form.value.description);
      FormValues(OrEmpty(form.value.title),
                 ParseDescriptionProperty(description, IsVisible),
                 ParseDescriptionProperty(description, IsReadOnly))
  }

  /** `extractFormValues`. */
  function ExtractFormValues(form: Option<PartialForm>): FormValues
  {
    if LacksId(form) then DefaultFormValues
    else
      var description := OrEmpty(form.value.description);
      var formatted := Contains(description, "Visible:") || Contains(description, "ReadOnly:");
      if formatted then
        FormValues(OrEmpty(form.value.title),
                   ParseDescriptionProperty(description, IsVisible),
                   ParseDescriptionProperty(description, IsReadOnly))
      else
        FormValues(OrEmpty(form.value.title), true, false)
  }

  /** `prepareFormData`: the payload `addForm` and `updateForm` receive. */
  function PrepareFormData(values: FormValues): (r: FormCreatePayload)
    ensures r.title == values.title
    ensures ExtractFormValues(Some(PartialForm(Some("id"), Some(r.title), Some(r.description), None))) == values
  {
    var r := FormCreatePayload(values.title, GenerateFormDescription(values));
    ExtractRoundTrip(values, "id", None);
    r
  }

  /** An empty description reads as visible and not read-only. */
  lemma EmptyDescriptionDefaults()
    ensures ParseDescriptionProperty("", IsVisible) && !ParseDescriptionProperty("", IsReadOnly)
  {
  }

  /** The visibility flag reads back from a generated description. */
  lemma ParseGeneratedVisible(values: FormValues)
    ensures ParseDescriptionProperty(GenerateFormDescription(values), IsVisible) == values.isVisible
  {
    var d := GenerateFormDescription(values);
    var p := "Visible: true";
    assert PropertyName(IsVisible) + ": true" == p;
    var head := "Visible: ";
    var word := BoolText(values.isVisible);
    var tail := ", ReadOnly: " + BoolText(values.isReadOnly);
    assert d == (head + word) + tail;
    if values.isVisible {
      assert head + word == p;
      assert d[..|p|] == p;
    } else {
      assert d[9] == word[0] != p[9];
      assert d[1..] == "isible: " + word + tail;
      AbsentHead(d[1..], p);
    }
  }

  /** The read-only flag reads back from a generated description. */
  lemma ParseGeneratedReadOnly(values: FormValues)
    ensures ParseDescriptionProperty(GenerateFormDescription(values), IsReadOnly) == values.isReadOnly
  {
    var d := GenerateFormDescription(values);
    var p := "ReadOnly: true";
    assert PropertyName(IsReadOnly) + ": true" == p;
    var head := "Visible: " + BoolText(values.isVisible) + ", ";
    var tail := "ReadOnly: " + BoolText(values.isReadOnly);
    assert d == head + tail;
    ContainsSkip(head, tail, p);
    if values.isReadOnly {
      assert tail[..|p|] == p;
    } else {
      assert tail[10] != p[10];
      assert tail[1..] == "eadOnly: false";
      AbsentHead(tail[1..], p);
    }
  }

  /** The description determines both flags: two values with the same
      generated description agree on visibility and read-only (the title is
      not part of the description). */
  lemma GeneratedFlagsInjective(a: FormValues, b: FormValues)
    requires GenerateFormDescription(a) == GenerateFormDescription(b)
    ensures a.isVisible == b.isVisible && a.isReadOnly == b.isReadOnly
  {
    ParseGeneratedVisible(a);
    ParseGeneratedVisible(b);
    ParseGeneratedReadOnly(a);
    ParseGeneratedReadOnly(b);
  }

  /** A generated description carries the visibility marker. */
  lemma GeneratedIsFormatted(values: FormValues)
    ensures Contains(GenerateFormDescription(values), "Visible:")
  {
    var d := GenerateFormDescription(values);
    assert d[..8] == "Visible:";
  }

  /** Round trip: a form whose description was generated from `values`, read
      back by `extractFormValues`, gives its title and both flags. */
  lemma ExtractRoundTrip(values: FormValues, id: string, createdAt: Option<string>)
    requires id != ""
    ensures ExtractFormValues(Some(PartialForm(Some(id), Some(values.title),
                                               Some(GenerateFormDescription(values)), createdAt))) == values
  {
    ParseGeneratedVisible(values);
    ParseGeneratedReadOnly(values);
    GeneratedIsFormatted(values);
  }

  /** A form stored by `addForm(prepareFormData(values))` reads back as `values`. */
  lemma StoredFormRoundTrip(values: FormValues, id: string, now: string)
    requires id != ""
    ensures ExtractFormValues(Some(AsPartial(NewForm(PrepareFormData(values), id, now)))) == values
  {
    ExtractRoundTrip(values, id, Some(now));
  }

  /** Without a form or an id both readers return the defaults. */
  lemma NoIdGivesDefaults(form: Option<PartialForm>)
    requires LacksId(form)
    ensures ExtractFormValues(form) == DefaultFormValues
    ensures GetInitialFormValues(form) == DefaultFormValues
  {
  }

  /** A description without either marker reads as visible, not read-only,
      under `extractFormValues`. */
  lemma UnformattedExtract(form: PartialForm)
    requires form.id.Some? && form.id.value != ""
    requires !Contains(OrEmpty(form.description), "Visible:")
    requires !Contains(OrEmpty(form.description), "ReadOnly:")
    ensures ExtractFormValues(Some(form)) == FormValues(OrEmpty(form.title), true, false)
  {
  }

  /** The two readers disagree on a non-empty description without markers:
      `getInitialFormValues` reads it as hidden. */
  lemma UnformattedDiverges(form: PartialForm)
    requires form.id.Some? && form.id.value != ""
    requires OrEmpty(form.description) != ""
    requires !Contains(OrEmpty(form.description), "Visible:")
    requires !Contains(OrEmpty(form.description), "ReadOnly:")
    ensures GetInitialFormValues(Some(form)) == FormValues(OrEmpty(form.title), false, false)
    ensures ExtractFormValues(Some(form)).isVisible
  {
    var d := OrEmpty(form.description);
    assert PropertyName(IsVisible) + ": true" == "Visible: true";
    assert PropertyName(IsReadOnly) + ": true" == "ReadOnly: true";
    assert "Visible:" + " true" == "Visible: true";
    assert "ReadOnly:" + " true" == "ReadOnly: true";
    if Contains(d, "Visible: true") {
      ContainsLonger(d, "Visible:", " true");
    }
    if Contains(d, "ReadOnly: true") {
      ContainsLonger(d, "ReadOnly:", " true");
    }
  }

  /** A non-empty description with no capital V and no capital R, such as every
      sample description of the initial store, is read as hidden by
      `getInitialFormValues` and as visible by `extractFormValues`. */
  lemma {:induction false} MarkerFreeDescriptionDiverges(form: PartialForm)
    requires form.id.Some? && form.id.value != ""
    requires form.description.Some? && form.description.value != []
    requires 'V' !in form.description.value && 'R' !in form.description.value
    ensures !GetInitialFormValues(Some(form)).isVisible && ExtractFormValues(Some(form)).isVisible
  {
    var d := form.description.value;
    AbsentHead(d, "Visible:");
    AbsentHead(d, "ReadOnly:");
    UnformattedDiverges(form);
  }
}
