/** The state of the add-field modal (`hooks/form/useFieldForm.ts`). The
    older `hooks/useFieldForm.ts` is an unused copy whose logic matches this
    one, apart from writing the two messages inline; it also imports types
    that `types/form.ts` does not export, and its props lack `formId`. */
module FieldForm {
  import opened Wrappers
  import opened Strings

  /** `FieldFormValues`: the raw modal inputs; `options` is the comma-separated text. */
  datatype FieldFormValues = FieldFormValues(
    fieldType: string,
    labelText: string,
    placeholder: Option<string>,
    required: bool,
    options: Option<string>,
    defaultValue: Option<string>)

  /** `keyof FieldFormValues`: the input names the modal uses. */
  datatype FieldKey = TypeKey | LabelKey | PlaceholderKey | RequiredKey | OptionsKey | DefaultValueKey

  /** `Partial<Record<keyof FieldFormValues, string>>`. */
  type FieldErrorMap = map<FieldKey, string>

  /** The `FieldType` values the hook compares against. */
  const TextType := "text"
  const DropdownType := "dropdown"
  const RadioType := "radio"

  const LabelRequired := "Field label is required"
  const OptionsRequired := "Options are required for dropdown and radio fields"

  /** `DEFAULT_FIELD_VALUES`. */
  const DefaultFieldValues := FieldFormValues(TextType, "", Some(""), false, Some(""), Some(""))

  /** `showOptionsField`: only choice fields have options. */
  predicate ShowOptionsField(values: FieldFormValues)
  {
    values.fieldType == DropdownType || values.fieldType == RadioType
  }

  /** `!values.options?.trim()`: no options text, or only white space. */
  predicate OptionsMissing(values: FieldFormValues)
  {
    values.options.None? || IsBlank(values.options.value)
  }

  /** The errors `validateForm` records. */
  function FieldErrors(values: FieldFormValues): (e: FieldErrorMap)
    ensures LabelKey in e <==> IsBlank(values.labelText)
    ensures OptionsKey in e <==> ShowOptionsField(values) && OptionsMissing(values)
    ensures e.Keys <= {LabelKey, OptionsKey}
    ensures LabelKey in e ==> e[LabelKey] == LabelRequired
    ensures OptionsKey in e ==> e[OptionsKey] == OptionsRequired
  {
    var withLabel: FieldErrorMap := if IsBlank(values.labelText) then map[LabelKey := LabelRequired] else map[];
    if ShowOptionsField(values) && OptionsMissing(values) then withLabel[OptionsKey := OptionsRequired]
    else withLabel
  }

  /** The return value of `validateForm`. */
  predicate IsFieldFormValid(values: FieldFormValues)
  {
    |FieldErrors(values)| == 0
  }

  /** A field is accepted exactly when its label has a non-space character
      and, for a dropdown or radio field, its options text has one too. */
  lemma FieldFormValidIff(values: FieldFormValues)
    ensures IsFieldFormValid(values) <==>
              !IsBlank(values.labelText) && (ShowOptionsField(values) ==> !OptionsMissing(values))
  {
    var e := FieldErrors(values);
    if LabelKey in e {
      assert |e| > 0;
    }
    if OptionsKey in e {
      assert |e| > 0;
    }
    if |e| > 0 {
      var k :| k in e;
    }
  }

  /** The modal opens on an invalid form: the label is empty; the default
      type is text, so options are never asked for. */
  lemma DefaultValuesErrors()
    ensures FieldErrors(DefaultFieldValues) == map[LabelKey := LabelRequired]
  {
  }

  /** Options text only matters for choice fields. */
  lemma OptionsIgnoredUnlessShown(values: FieldFormValues, options: Option<string>)
    requires !ShowOptionsField(values)
    ensures FieldErrors(values.(options := options)) == FieldErrors(values)
  {
  }

  /** `{ ...prev, [name]: value }`, or `checked` for the checkbox. */
  function WithInput(values: FieldFormValues, key: FieldKey, value: string, checked: bool): FieldFormValues
  {
    match key
    case TypeKey => values.(fieldType := value)
    case LabelKey => values.(labelText := value)
    case PlaceholderKey => values.(placeholder := Some(value))
    case RequiredKey => values.(required := checked)
    case OptionsKey => values.(options := Some(value))
    case DefaultValueKey => values.(defaultValue := Some(value))
  }

  /** A change touches its own input only. */
  lemma WithInputOnlyItsKey(values: FieldFormValues, key: FieldKey, value: string, checked: bool)
    ensures var r := WithInput(values, key, value, checked);
      (key != TypeKey ==> r.fieldType == values.fieldType) &&
      (key != LabelKey ==> r.labelText == values.labelText) &&
      (key != PlaceholderKey ==> r.placeholder == values.placeholder) &&
      (key != RequiredKey ==> r.required == values.required) &&
      (key != OptionsKey ==> r.options == values.options) &&
      (key != DefaultValueKey ==> r.defaultValue == values.defaultValue)
  {
  }

  /** Retyping the label with a non-blank one clears the label error on the
      next validation; a choice field still needs its options. */
  lemma RelabelFixesLabel(values: FieldFormValues, newLabel: string)
    requires !IsBlank(newLabel)
    ensures LabelKey !in FieldErrors(WithInput(values, LabelKey, newLabel, false))
    ensures (OptionsKey in FieldErrors(WithInput(values, LabelKey, newLabel, false))) ==
            (OptionsKey in FieldErrors(values))
  {
  }

  class FieldFormState {
    var values: FieldFormValues
    var errors: FieldErrorMap
    var isSubmitting: bool

    constructor ()
      ensures values == DefaultFieldValues && errors == map[] && !isSubmitting
    {
      values := DefaultFieldValues;
      errors := map[];
      isSubmitting := false;
    }

    /** `handleChange`: stores the input, the checkbox's `checked` for the
        required flag, and blanks that input's error when it had one. */
    method HandleChange(key: FieldKey, inputType: string, value: string, checked: bool)
      requires (inputType == "checkbox") <==> key == RequiredKey
      modifies this
      ensures values == WithInput(old(values), key, value, checked)
      ensures key in old(errors) && old(errors)[key] != "" ==> errors == old(errors)[key := ""]
      ensures !(key in old(errors) && old(errors)[key] != "") ==> errors == old(errors)
      ensures key in errors ==> errors[key] == ""
      ensures errors.Keys == old(errors.Keys) && isSubmitting == old(isSubmitting)
    {
      if inputType == "checkbox" {
        values := WithInput(values, key, "", checked);
      } else {
        values := WithInput(values, key, value, checked);
      }
      if key in errors && errors[key] != "" {
        errors := errors[key := ""];
      }
    }

    /** `validateForm`: records the errors and reports whether there are none. */
    method ValidateForm() returns (valid: bool)
      modifies this
      ensures errors == FieldErrors(values) && values == old(values)
      ensures valid <==> IsFieldFormValid(values)
      ensures isSubmitting == old(isSubmitting)
    {
      errors := FieldErrors(values);
      valid := |errors| == 0;
    }

    /** `handleSubmit`: an invalid form is not saved; a valid one is passed to
        `onSave` and the modal closes unless `onSave` throws (whether it
        throws is a parameter). Submission always ends with `isSubmitting`
        down. */
    method HandleSubmit(saveThrows: bool) returns (saved: Option<FieldFormValues>, closed: bool)
      modifies this
      ensures errors == FieldErrors(old(values)) && values == old(values)
      ensures saved.Some? <==> IsFieldFormValid(values)
      ensures saved.Some? ==> saved.value == values
      ensures closed <==> saved.Some? && !saveThrows
      ensures isSubmitting == (if saved.Some? then false else old(isSubmitting))
    {
      var valid := ValidateForm();
      if !valid {
        return None, false;
      }
      isSubmitting := true;
      saved := Some(values);
      closed := !saveThrows;
      isSubmitting := false;
    }

    /** `resetForm`: default values and no errors. */
    method ResetForm()
      modifies this
      ensures values == DefaultFieldValues && errors == map[]
      ensures isSubmitting == old(isSubmitting)
    {
      values := DefaultFieldValues;
      errors := map[];
    }
  }
}
