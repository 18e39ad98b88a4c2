/** The fields slice of the store (`lib/redux/slices/fieldsSlice.ts`): every
    field of every form in one list, each pointing at its form by `formId`.
    The `FormField` record is the one `formIdManager.ts` and
    `useFieldManagement.ts` build. */
module FieldsSlice {
  import opened Wrappers
  import opened Seqs
  import opened FormsSlice

  datatype Field = Field(
    id: string,
    formId: string,
    fieldType: string,
    labelText: string,
    placeholder: Option<string>,
    required: bool,
    options: Option<seq<string>>,
    defaultValue: Option<string>)

  /** `Omit<FormField, 'id'>`. */
  datatype FieldCreatePayload = FieldCreatePayload(
    formId: string,
    fieldType: string,
    labelText: string,
    placeholder: Option<string>,
    required: bool,
    options: Option<seq<string>>,
    defaultValue: Option<string>)

  /** `Partial<FormField> & { id }`: `Some` marks a property present in the payload. */
  datatype FieldUpdatePayload = FieldUpdatePayload(
    id: string,
    formId: Option<string>,
    fieldType: Option<string>,
    labelText: Option<string>,
    placeholder: Option<string>,
    required: Option<bool>,
    options: Option<seq<string>>,
    defaultValue: Option<string>)

  function FieldHasId(id: string): Field -> bool { (f: Field) => f.id == id }

  function FieldIdIsNot(id: string): Field -> bool { (f: Field) => f.id != id }

  function InForm(formId: string): Field -> bool { (f: Field) => f.formId == formId }

  function NotInForm(formId: string): Field -> bool { (f: Field) => f.formId != formId }

  function FieldKey(): Field -> string { (f: Field) => f.id }

  predicate FieldIdsDistinct(fields: seq<Field>)
  {
    DistinctBy(fields, FieldKey())
  }

  predicate FieldIdUnused(fields: seq<Field>, id: string)
  {
    forall k :: 0 <= k < |fields| ==> fields[k].id != id
  }

  /** `{ ...payload, id }`. */
  function NewField(p: FieldCreatePayload, id: string): Field
  {
    Field(id, p.formId, p.fieldType, p.labelText, p.placeholder, p.required, p.options, p.defaultValue)
  }

  /** `{ ...field, ...updates }`: present properties win, the id never changes. */
  function MergeField(f: Field, u: FieldUpdatePayload): (r: Field)
    ensures r.id == f.id
    ensures r.formId == (if u.formId.Some? then u.formId.value else f.formId)
    ensures r.labelText == (if u.labelText.Some? then u.labelText.value else f.labelText)
    ensures r.required == (if u.required.Some? then u.required.value else f.required)
    ensures r.fieldType == (if u.fieldType.Some? then u.fieldType.value else f.fieldType)
    ensures r.placeholder == (if u.placeholder.Some? then u.placeholder else f.placeholder)
    ensures r.options == (if u.options.Some? then u.options else f.options)
    ensures r.defaultValue == (if u.defaultValue.Some? then u.defaultValue else f.defaultValue)
  {
    Field(f.id,
          if u.formId.Some? then u.formId.value else f.formId,
          if u.fieldType.Some? then u.fieldType.value else f.fieldType,
          if u.labelText.Some? then u.labelText.value else f.labelText,
          if u.placeholder.Some? then u.placeholder else f.placeholder,
          if u.required.Some? then u.required.value else f.required,
          if u.options.Some? then u.options else f.options,
          if u.defaultValue.Some? then u.defaultValue else f.defaultValue)
  }

  /** The list after the `updateField` reducer. */
  function UpdateFieldById(fields: seq<Field>, u: FieldUpdatePayload): seq<Field>
  {
    var i := FindIndex(fields, FieldHasId(u.id));
    if i == -1 then fields else fields[i := MergeField(fields[i], u)]
  }

  /** `updateField` is a no-op for an unknown id; for a known id it merges into
      the first match only, keeping its id and the length of the list. */
  lemma UpdateFieldEffect(fields: seq<Field>, u: FieldUpdatePayload)
    ensures var r := UpdateFieldById(fields, u);
      (FieldIdUnused(fields, u.id) ==> r == fields) &&
      (!FieldIdUnused(fields, u.id) ==>
         exists i :: 0 <= i < |fields| && fields[i].id == u.id &&
                     (forall k :: 0 <= k < i ==> fields[k].id != u.id) &&
                     |r| == |fields| && r[i] == MergeField(fields[i], u) &&
                     forall k :: 0 <= k < |fields| && k != i ==> r[k] == fields[k])
  {
    var i := FindIndex(fields, FieldHasId(u.id));
    if i != -1 {
      assert fields[i].id == u.id;
    }
  }

  /** `selectFieldsByFormId`: the fields of one form, in store order. */
  function SelectFieldsByFormId(fields: seq<Field>, formId: string): (r: seq<Field>)
    ensures forall k :: 0 <= k < |r| ==> r[k].formId == formId
  {
    var r := Filter(fields, InForm(formId));
    assert forall k :: 0 <= k < |r| ==> r[k] in r;
    r
  }

  /** The selector is the order-preserving filter on `formId`: it keeps every
      field of the form and only those, in store order. */
  lemma {:induction false} SelectFieldsByFormIdExact(fields: seq<Field>, formId: string)
    ensures var r := SelectFieldsByFormId(fields, formId);
      (forall f :: f in r <==> f in fields && f.formId == formId) &&
      IsSubsequence(r, fields)
  {
    forall f ensures f in SelectFieldsByFormId(fields, formId) <==> f in fields && f.formId == formId {
      FilterMembers(fields, InForm(formId), f);
    }
    FilterIsSubsequence(fields, InForm(formId));
  }

  /** `selectFieldById`: the first field with the id, or none. */
  function SelectFieldById(fields: seq<Field>, fieldId: string): (r: Option<Field>)
    ensures r.None? <==> FieldIdUnused(fields, fieldId)
    ensures r.Some? ==> exists i :: 0 <= i < |fields| && fields[i] == r.value && r.value.id == fieldId &&
                                    forall k :: 0 <= k < i ==> fields[k].id != fieldId
  {
    Find(fields, FieldHasId(fieldId))
  }

  /** `deleteField` removes exactly the fields with the id and keeps the order
      of the rest. */
  lemma {:induction false} DeleteFieldExact(fields: seq<Field>, id: string)
    ensures var r := Filter(fields, FieldIdIsNot(id));
      (forall f :: f in r <==> f in fields && f.id != id) &&
      IsSubsequence(r, fields)
  {
    forall f ensures f in Filter(fields, FieldIdIsNot(id)) <==> f in fields && f.id != id {
      FilterMembers(fields, FieldIdIsNot(id), f);
    }
    FilterIsSubsequence(fields, FieldIdIsNot(id));
  }

  /** After `deleteFormFields(f)` no field belongs to `f`, the fields of other
      forms are all kept in order, and selecting `f` yields nothing. */
  lemma {:induction false} DeleteFormFieldsExact(fields: seq<Field>, formId: string)
    ensures var r := Filter(fields, NotInForm(formId));
      (forall f :: f in r <==> f in fields && f.formId != formId) &&
      IsSubsequence(r, fields) &&
      SelectFieldsByFormId(r, formId) == []
  {
    var r := Filter(fields, NotInForm(formId));
    forall f ensures f in r <==> f in fields && f.formId != formId {
      FilterMembers(fields, NotInForm(formId), f);
    }
    FilterIsSubsequence(fields, NotInForm(formId));
    var s := SelectFieldsByFormId(r, formId);
    if s != [] {
      assert s[0] in s;
      FilterMembers(r, InForm(formId), s[0]);
      assert false;
    }
  }

  /** Removing a form's fields leaves every other form's selection as it was. */
  lemma {:induction false} DeleteFormFieldsKeepsOtherForms(fields: seq<Field>, formId: string, other: string)
    requires other != formId
    ensures SelectFieldsByFormId(Filter(fields, NotInForm(formId)), other) == SelectFieldsByFormId(fields, other)
  {
    if fields != [] {
      DeleteFormFieldsKeepsOtherForms(fields[1..], formId, other);
    }
  }

  class FieldsState {
    var fields: seq<Field>
    var status: Status
    var error: Option<string>

    ghost predicate Valid()
      reads this
    {
      FieldIdsDistinct(fields)
    }

    /** `initialState`: no fields, status idle, no error. */
    constructor ()
      ensures fields == [] && status == Idle && error == None
      ensures Valid()
    {
      fields := [];
      status := Idle;
      error := None;
    }

    /** `addField`: appends one field with the payload and the fresh id. */
    method AddField(payload: FieldCreatePayload, freshId: string)
      requires FieldIdUnused(fields, freshId)
      modifies this
      ensures fields == old(fields) + [NewField(payload, freshId)]
      ensures status == old(status) && error == old(error)
      ensures old(Valid()) ==> Valid()
    {
      fields := fields + [NewField(payload, freshId)];
    }

    /** `updateField`: merges into the first field with the id, if any. */
    method UpdateField(payload: FieldUpdatePayload)
      modifies this
      ensures fields == UpdateFieldById(old(fields), payload)
      ensures |fields| == |old(fields)|
      ensures forall k :: 0 <= k < |fields| ==> fields[k].id == old(fields)[k].id
      ensures status == old(status) && error == old(error)
      ensures old(Valid()) ==> Valid()
    {
      var index := FindIndex(fields, FieldHasId(payload.id));
      if index != -1 {
        fields := fields[index := MergeField(fields[index], payload)];
      }
    }

    /** `deleteField`: keeps the fields with another id. */
    method DeleteField(id: string)
      modifies this
      ensures fields == Filter(old(fields), FieldIdIsNot(id))
      ensures status == old(status) && error == old(error)
      ensures old(Valid()) ==> Valid()
    {
      ghost var before := fields;
      fields := Filter(fields, FieldIdIsNot(id));
      FilterIsSubsequence(before, FieldIdIsNot(id));
      if FieldIdsDistinct(before) {
        SubsequenceKeepsDistinct(fields, before, FieldKey());
      }
    }

    /** `deleteFormFields`: keeps the fields of the other forms. */
    method DeleteFormFields(formId: string)
      modifies this
      ensures fields == Filter(old(fields), NotInForm(formId))
      ensures status == old(status) && error == old(error)
      ensures old(Valid()) ==> Valid()
    {
      ghost var before := fields;
      fields := Filter(fields, NotInForm(formId));
      FilterIsSubsequence(before, NotInForm(formId));
      if FieldIdsDistinct(before) {
        SubsequenceKeepsDistinct(fields, before, FieldKey());
      }
    }

    method SetFieldsLoading()
      modifies this
      ensures status == Loading && error == None && fields == old(fields)
    {
      status := Loading;
      error := None;
    }

    method SetFieldsError(message: string)
      modifies this
      ensures status == Failed && error == Some(message) && fields == old(fields)
    {
      status := Failed;
      error := Some(message);
    }

    method SetFieldsSuccess()
      modifies this
      ensures status == Succeeded && error == None && fields == old(fields)
    {
      status := Succeeded;
      error := None;
    }
  }
}
