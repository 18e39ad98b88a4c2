/** Moving the fields of a form being created from its temporary id to its
    permanent one (`utils/formIdManager.ts`). The manager dispatches to the
    fields slice; `uuidv4()` inside `addField` is given as a list of fresh ids,
    one per field, in order. */
module FormIdManager {
  import opened Wrappers
  import opened Seqs
  import opened FieldsSlice

  /** The `addField` payload built from a field: everything but its id, with
      the new form id. */
  function CopyPayload(f: Field, formId: string): FieldCreatePayload
  {
    FieldCreatePayload(formId, f.fieldType, f.labelText, f.placeholder, f.required, f.options, f.defaultValue)
  }

  /** The fields appended by the `forEach`, in order. */
  function Copies(fields: seq<Field>, formId: string, ids: seq<string>): (r: seq<Field>)
    requires |ids| == |fields|
    ensures |r| == |fields|
  {
    seq(|fields|, k requires 0 <= k < |fields| => NewField(CopyPayload(fields[k], formId), ids[k]))
  }

  predicate Distinct(ids: seq<string>)
  {
    forall a, b :: 0 <= a < b < |ids| ==> ids[a] != ids[b]
  }

  /** Each copy is its original in the new form under its fresh id: type,
      label, placeholder, required flag, options and default value carried
      over unchanged. */
  lemma CopiesAt(fields: seq<Field>, formId: string, ids: seq<string>, k: nat)
    requires |ids| == |fields| && k < |fields|
    ensures var c := Copies(fields, formId, ids)[k];
      c.id == ids[k] && c.formId == formId &&
      c == fields[k].(id := ids[k], formId := formId)
  {
  }

  /** `cleanupTemporaryFields` and the first dispatch keep ids unused. */
  lemma {:induction false} FilterKeepsUnused(fields: seq<Field>, keep: Field -> bool, id: string)
    requires FieldIdUnused(fields, id)
    ensures FieldIdUnused(Filter(fields, keep), id)
  {
    var r := Filter(fields, keep);
    forall k | 0 <= k < |r| ensures r[k].id != id {
      assert r[k] in r;
      FilterMembers(fields, keep, r[k]);
    }
  }

  /** `saveFieldsForNewForm`: nothing happens for an empty list; otherwise the
      temporary form's fields are dropped and a copy of every given field is
      appended under the new form id. */
  method SaveFieldsForNewForm(store: FieldsState, tempFormId: string, formFields: seq<Field>,
                              newFormId: string, freshIds: seq<string>)
    requires |freshIds| == |formFields| && Distinct(freshIds)
    requires forall k :: 0 <= k < |freshIds| ==> FieldIdUnused(store.fields, freshIds[k])
    modifies store
    ensures |formFields| == 0 ==> store.fields == old(store.fields)
    ensures |formFields| > 0 ==>
              store.fields == Filter(old(store.fields), NotInForm(tempFormId)) +
                              Copies(formFields, newFormId, freshIds)
    ensures store.status == old(store.status) && store.error == old(store.error)
    ensures old(store.Valid()) ==> store.Valid()
  {
    if |formFields| > 0 {
      ghost var before := store.fields;
      store.DeleteFormFields(tempFormId);
      forall j | 0 <= j < |freshIds| ensures FieldIdUnused(store.fields, freshIds[j]) {
        FilterKeepsUnused(before, NotInForm(tempFormId), freshIds[j]);
      }
      ghost var base := store.fields;
      var i := 0;
      while i < |formFields|
        invariant 0 <= i <= |formFields|
        invariant store.fields == base + Copies(formFields[..i], newFormId, freshIds[..i])
        invariant forall j :: i <= j < |freshIds| ==> FieldIdUnused(store.fields, freshIds[j])
        invariant store.status == old(store.status) && store.error == old(store.error)
        invariant old(store.Valid()) ==> store.Valid()
      {
        ghost var prior := store.fields;
        store.AddField(CopyPayload(formFields[i], newFormId), freshIds[i]);
        assert Copies(formFields[..i + 1], newFormId, freshIds[..i + 1]) ==
               Copies(formFields[..i], newFormId, freshIds[..i]) +
               [NewField(CopyPayload(formFields[i], newFormId), freshIds[i])];
        forall j | i + 1 <= j < |freshIds| ensures FieldIdUnused(store.fields, freshIds[j]) {
          assert FieldIdUnused(prior, freshIds[j]);
          assert freshIds[i] != freshIds[j];
        }
        i := i + 1;
      }
      assert formFields[..i] == formFields && freshIds[..i] == freshIds;
    }
  }

  /** `cleanupTemporaryFields`: drops every field of the temporary form. */
  method CleanupTemporaryFields(store: FieldsState, tempFormId: string)
    modifies store
    ensures store.fields == Filter(old(store.fields), NotInForm(tempFormId))
    ensures store.status == old(store.status) && store.error == old(store.error)
    ensures old(store.Valid()) ==> store.Valid()
  {
    store.DeleteFormFields(tempFormId);
  }

  /** After the transfer to a form id no field used before, the new form's
      fields are exactly the copies, in the given order, and the temporary
      form has none left. */
  lemma {:induction false} TransferSelection(before: seq<Field>, tempFormId: string, formFields: seq<Field>,
                                             newFormId: string, freshIds: seq<string>)
    requires |freshIds| == |formFields| && newFormId != tempFormId
    requires forall k :: 0 <= k < |before| ==> before[k].formId != newFormId
    ensures var after := Filter(before, NotInForm(tempFormId)) + Copies(formFields, newFormId, freshIds);
      SelectFieldsByFormId(after, newFormId) == Copies(formFields, newFormId, freshIds) &&
      SelectFieldsByFormId(after, tempFormId) == []
  {
    var kept := Filter(before, NotInForm(tempFormId));
    var copies := Copies(formFields, newFormId, freshIds);
    FilterAppend(kept, copies, InForm(newFormId));
    FilterAppend(kept, copies, InForm(tempFormId));
    var none := Filter(kept, InForm(newFormId));
    if none != [] {
      assert none[0] in none;
      FilterMembers(kept, InForm(newFormId), none[0]);
      FilterMembers(before, NotInForm(tempFormId), none[0]);
    }
    FilterAllKept(copies, InForm(newFormId));
    DeleteFormFieldsExact(before, tempFormId);
    var left := Filter(copies, InForm(tempFormId));
    if left != [] {
      assert left[0] in left;
      FilterMembers(copies, InForm(tempFormId), left[0]);
    }
  }

  /** The transfer leaves the fields of every other form as they were. */
  lemma {:induction false} TransferKeepsOtherForms(before: seq<Field>, tempFormId: string, formFields: seq<Field>,
                                                   newFormId: string, freshIds: seq<string>, other: string)
    requires |freshIds| == |formFields| && other != tempFormId && other != newFormId
    ensures SelectFieldsByFormId(Filter(before, NotInForm(tempFormId)) + Copies(formFields, newFormId, freshIds), other) ==
            SelectFieldsByFormId(before, other)
  {
    var kept := Filter(before, NotInForm(tempFormId));
    var copies := Copies(formFields, newFormId, freshIds);
    FilterAppend(kept, copies, InForm(other));
    DeleteFormFieldsKeepsOtherForms(before, tempFormId, other);
    var extra := Filter(copies, InForm(other));
    if extra != [] {
      assert extra[0] in extra;
      FilterMembers(copies, InForm(other), extra[0]);
    }
  }
}
