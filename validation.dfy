/** Name validation for forms and fields (`utils/validation.ts`): an ordered,
    short-circuiting chain of four rules of which only the first failure is
    reported. */
module Validation {
  import opened Wrappers
  import opened Seqs
  import opened Strings
  import opened ApiTypes

  /** The four rules, in the order they are checked. */
  datatype NameError = NameRequired | NameCapitalization | NameFormat | NameUnique

  /** `{ isValid, error? }`. */
  datatype NameCheck = NameCheck(isValid: bool, error: Option<NameError>)

  predicate IsUpperAscii(c: char) { 'A' <= c <= 'Z' }

  predicate IsAsciiAlphanumeric(c: char) { 'A' <= c <= 'Z' || 'a' <= c <= 'z' || '0' <= c <= '9' }

  /** `!name.trim()`. */
  predicate IsNameEmpty(name: string) { IsBlank(name) }

  /** `/^[A-Z]/.test(name)`. */
  predicate IsNameCapitalized(name: string) { |name| > 0 && IsUpperAscii(name[0]) }

  /** `/^[A-Za-z0-9]+$/.test(name)`. */
  predicate IsNameValidFormat(name: string)
  {
    |name| > 0 && forall k :: 0 <= k < |name| ==> IsAsciiAlphanumeric(name[k])
  }

  function FieldNamed(name: string): ApiField -> bool
  {
    (f: ApiField) => f.name == name
  }

  /** A form that blocks `name`: same name, and an `_id` other than `currentFormId`
      (an absent `_id` equals an absent `currentFormId`). */
  function FormClashes(name: string, currentFormId: Option<string>): ApiForm -> bool
  {
    (f: ApiForm) => f.name == name && f.id != currentFormId
  }

  /** `!fields.some(field => field.name === name)`. */
  predicate IsFieldNameUnique(name: string, fields: seq<ApiField>)
  {
    !Any(fields, FieldNamed(name))
  }

  /** `!forms.some(form => form.name === name && form._id !== currentFormId)`. */
  predicate IsFormNameUnique(name: string, forms: seq<ApiForm>, currentFormId: Option<string> := None)
  {
    !Any(forms, FormClashes(name, currentFormId))
  }

  /** The three rules that look at the name alone, in order. */
  function ShapeError(name: string): (e: Option<NameError>)
    ensures e != Some(NameUnique)
    ensures e.None? <==> IsNameCapitalized(name) && IsNameValidFormat(name)
  {
    if IsNameEmpty(name) then Some(NameRequired)
    else if !IsNameCapitalized(name) then Some(NameCapitalization)
    else if !IsNameValidFormat(name) then Some(NameFormat)
    else None
  }

  function Invalid(e: NameError): NameCheck { NameCheck(false, Some(e)) }

  function Valid(): NameCheck { NameCheck(true, None) }

  function ValidateFieldName(name: string, existingFields: seq<ApiField> := []): (r: NameCheck)
    ensures r.isValid <==> r.error.None?
  {
    var shape := ShapeError(name);
    if shape.Some? then Invalid(shape.value)
    else if !IsFieldNameUnique(name, existingFields) then Invalid(NameUnique)
    else Valid()
  }

  function ValidateFormName(name: string, existingForms: seq<ApiForm> := [],
                            currentFormId: Option<string> := None): (r: NameCheck)
    ensures r.isValid <==> r.error.None?
  {
    var shape := ShapeError(name);
    if shape.Some? then Invalid(shape.value)
    else if !IsFormNameUnique(name, existingForms, currentFormId) then Invalid(NameUnique)
    else Valid()
  }

  /** A name that starts with an upper-case letter is never blank, so after the
      capitalization rule passes the emptiness rule is implied. */
  lemma CapitalizedIsNotBlank(name: string)
    requires IsNameCapitalized(name)
    ensures !IsNameEmpty(name)
  {
    NotBlankIfFirstNotSpace(name);
  }

  /** A name of white space only is reported as required, whatever the forms. */
  lemma BlankFormNameIsRequired(name: string, forms: seq<ApiForm>, currentFormId: Option<string>)
    requires forall k :: 0 <= k < |name| ==> IsSpace(name[k])
    ensures ValidateFormName(name, forms, currentFormId) == Invalid(NameRequired)
  {
  }

  /** The same for field names, whatever the fields. */
  lemma BlankFieldNameIsRequired(name: string, fields: seq<ApiField>)
    requires forall k :: 0 <= k < |name| ==> IsSpace(name[k])
    ensures ValidateFieldName(name, fields) == Invalid(NameRequired)
  {
  }

  /** A non-blank name whose first character is not A-Z (a leading space, a
      lower-case letter) is a capitalization error even when it is also a
      duplicate or badly formatted. */
  lemma UncapitalizedFormName(name: string, forms: seq<ApiForm>, currentFormId: Option<string>)
    requires exists k :: 0 <= k < |name| && !IsSpace(name[k])
    requires !IsUpperAscii(name[0])
    ensures ValidateFormName(name, forms, currentFormId) == Invalid(NameCapitalization)
  {
  }

  lemma UncapitalizedFieldName(name: string, fields: seq<ApiField>)
    requires exists k :: 0 <= k < |name| && !IsSpace(name[k])
    requires !IsUpperAscii(name[0])
    ensures ValidateFieldName(name, fields) == Invalid(NameCapitalization)
  {
  }

  /** A capitalized name with a character outside `[A-Za-z0-9]` is a format
      error, before uniqueness is looked at. */
  lemma BadlyFormattedFormName(name: string, forms: seq<ApiForm>, currentFormId: Option<string>, k: nat)
    requires |name| > 0 && IsUpperAscii(name[0])
    requires k < |name| && !IsAsciiAlphanumeric(name[k])
    ensures ValidateFormName(name, forms, currentFormId) == Invalid(NameFormat)
  {
    CapitalizedIsNotBlank(name);
  }

  lemma BadlyFormattedFieldName(name: string, fields: seq<ApiField>, k: nat)
    requires |name| > 0 && IsUpperAscii(name[0])
    requires k < |name| && !IsAsciiAlphanumeric(name[k])
    ensures ValidateFieldName(name, fields) == Invalid(NameFormat)
  {
    CapitalizedIsNotBlank(name);
  }

  /** A form name is valid exactly when it starts with A-Z, is all ASCII
      letters and digits, and no form with a different `_id` has exactly that
      name (case-sensitive). */
  lemma {:induction false} FormNameValidIff(name: string, forms: seq<ApiForm>, currentFormId: Option<string>)
    ensures ValidateFormName(name, forms, currentFormId).isValid <==>
              IsNameCapitalized(name) && IsNameValidFormat(name) &&
              forall k :: 0 <= k < |forms| && forms[k].name == name ==> forms[k].id == currentFormId
  {
    AnyIff(forms, FormClashes(name, currentFormId));
  }

  /** The uniqueness error is reported exactly when the name is well formed
      and some form not excluded by `currentFormId` carries it. */
  lemma {:induction false} FormNameUniqueErrorIff(name: string, forms: seq<ApiForm>, currentFormId: Option<string>)
    ensures ValidateFormName(name, forms, currentFormId).error == Some(NameUnique) <==>
              IsNameCapitalized(name) && IsNameValidFormat(name) &&
              exists k :: 0 <= k < |forms| && forms[k].name == name && forms[k].id != currentFormId
  {
    AnyIff(forms, FormClashes(name, currentFormId));
  }

  /** Re-validating a form under its own name, with `currentFormId` its own
      `_id`, succeeds when its name is well formed and no other form shares it:
      the excluded form never makes the name a duplicate. */
  lemma {:induction false} RevalidateOwnName(forms: seq<ApiForm>, k: nat)
    requires k < |forms| && forms[k].id.Some?
    requires IsNameCapitalized(forms[k].name) && IsNameValidFormat(forms[k].name)
    requires forall j :: 0 <= j < |forms| && j != k ==> forms[j].name != forms[k].name
    ensures ValidateFormName(forms[k].name, forms, forms[k].id) == Valid()
  {
    FormNameValidIff(forms[k].name, forms, forms[k].id);
  }

  /** Forms whose `_id` is `currentFormId` can be dropped from the list without
      changing any verdict. */
  lemma {:induction false} ExcludedFormsAreIgnored(name: string, forms: seq<ApiForm>, currentFormId: Option<string>)
    ensures ValidateFormName(name, forms, currentFormId) ==
            ValidateFormName(name, Filter(forms, (f: ApiForm) => f.id != currentFormId), currentFormId)
  {
    var kept := Filter(forms, (f: ApiForm) => f.id != currentFormId);
    var clash := FormClashes(name, currentFormId);
    AnyIff(forms, clash);
    AnyIff(kept, clash);
    if exists k :: 0 <= k < |forms| && clash(forms[k]) {
      var k :| 0 <= k < |forms| && clash(forms[k]);
      FilterMembers(forms, (f: ApiForm) => f.id != currentFormId, forms[k]);
      var j :| 0 <= j < |kept| && kept[j] == forms[k];
      assert clash(kept[j]);
    }
    if exists j :: 0 <= j < |kept| && clash(kept[j]) {
      var j :| 0 <= j < |kept| && clash(kept[j]);
      assert kept[j] in kept;
      FilterMembers(forms, (f: ApiForm) => f.id != currentFormId, kept[j]);
      var k :| 0 <= k < |forms| && forms[k] == kept[j];
      assert clash(forms[k]);
    }
  }

  /** Field-name uniqueness has no exclusion: any field already carrying a
      well-formed name makes it a duplicate. */
  lemma {:induction false} FieldNameDuplicate(name: string, fields: seq<ApiField>, k: nat)
    requires IsNameCapitalized(name) && IsNameValidFormat(name)
    requires k < |fields| && fields[k].name == name
    ensures ValidateFieldName(name, fields) == Invalid(NameUnique)
  {
    AnyIff(fields, FieldNamed(name));
  }

  /** A field name is valid exactly when it is well formed and no field in the
      list has it. */
  lemma {:induction false} FieldNameValidIff(name: string, fields: seq<ApiField>)
    ensures ValidateFieldName(name, fields).isValid <==>
              IsNameCapitalized(name) && IsNameValidFormat(name) &&
              forall k :: 0 <= k < |fields| ==> fields[k].name != name
  {
    AnyIff(fields, FieldNamed(name));
  }

  /** Only the first failing rule is reported: each error value is returned
      exactly when every earlier rule passes and its own rule fails. */
  lemma {:induction false} FirstFailingRuleWins(name: string, forms: seq<ApiForm>, currentFormId: Option<string>)
    ensures var r := ValidateFormName(name, forms, currentFormId);
      (r.error == Some(NameRequired) <==> IsNameEmpty(name)) &&
      (r.error == Some(NameCapitalization) <==> !IsNameEmpty(name) && !IsNameCapitalized(name)) &&
      (r.error == Some(NameFormat) <==> IsNameCapitalized(name) && !IsNameValidFormat(name)) &&
      (r.error == Some(NameUnique) <==> IsNameCapitalized(name) && IsNameValidFormat(name) &&
                                        !IsFormNameUnique(name, forms, currentFormId))
  {
    if IsNameCapitalized(name) {
      CapitalizedIsNotBlank(name);
    }
  }
}
