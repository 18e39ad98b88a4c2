/** The forms slice of the store (`lib/redux/slices/formsSlice.ts`): a list of
    forms in creation order plus a request status. Reducers change the state
    in place; `uuidv4()` and `new Date().toISOString()` are passed in. */
module FormsSlice {
  import opened Wrappers
  import opened Seqs

  datatype Form = Form(id: string, title: string, description: string, createdAt: string)

  datatype Status = Idle | Loading | Succeeded | Failed

  /** `Omit<Form, 'id' | 'createdAt'>`. */
  datatype FormCreatePayload = FormCreatePayload(title: string, description: string)

  /** `Partial<Form> & { id }`: `Some` marks a property present in the payload. */
  datatype FormUpdatePayload = FormUpdatePayload(
    id: string, title: Option<string>, description: Option<string>, createdAt: Option<string>)

  function HasId(id: string): Form -> bool { (f: Form) => f.id == id }

  function IdIsNot(id: string): Form -> bool { (f: Form) => f.id != id }

  function FormKey(): Form -> string { (f: Form) => f.id }

  predicate IdsDistinct(forms: seq<Form>)
  {
    DistinctBy(forms, FormKey())
  }

  predicate IdUnused(forms: seq<Form>, id: string)
  {
    forall k :: 0 <= k < |forms| ==> forms[k].id != id
  }

  /** `{ ...payload, id, createdAt }`. */
  function NewForm(payload: FormCreatePayload, id: string, createdAt: string): Form
  {
    Form(id, payload.title, payload.description, createdAt)
  }

  /** `{ ...form, ...updates }`: present properties win, the id never changes. */
  function MergeForm(f: Form, u: FormUpdatePayload): (r: Form)
    ensures r.id == f.id
    ensures u.title.None? ==> r.title == f.title
    ensures u.title.Some? ==> r.title == u.title.value
    ensures u.description.None? ==> r.description == f.description
    ensures u.description.Some? ==> r.description == u.description.value
    ensures u.createdAt.None? ==> r.createdAt == f.createdAt
    ensures u.createdAt.Some? ==> r.createdAt == u.createdAt.value
  {
    Form(f.id,
         if u.title.Some? then u.title.value else f.title,
         if u.description.Some? then u.description.value else f.description,
         if u.createdAt.Some? then u.createdAt.value else f.createdAt)
  }

  /** The list after the `updateForm` reducer: the first form with the
      payload's id is merged with it, or nothing changes. */
  function UpdateById(forms: seq<Form>, u: FormUpdatePayload): seq<Form>
  {
    var i := FindIndex(forms, HasId(u.id));
    if i == -1 then forms else forms[i := MergeForm(forms[i], u)]
  }

  /** An id no form has leaves the list as it is. */
  lemma UpdateAbsentIsNoop(forms: seq<Form>, u: FormUpdatePayload)
    requires IdUnused(forms, u.id)
    ensures UpdateById(forms, u) == forms
  {
  }

  /** A present id changes only the first matching entry, which keeps its id
      and every property the payload does not carry; the length is kept. */
  lemma UpdatePresent(forms: seq<Form>, u: FormUpdatePayload, i: nat)
    requires i < |forms| && forms[i].id == u.id
    requires forall k :: 0 <= k < i ==> forms[k].id != u.id
    ensures var r := UpdateById(forms, u);
      |r| == |forms| && r[i] == MergeForm(forms[i], u) && r[i].id == u.id &&
      forall k :: 0 <= k < |forms| && k != i ==> r[k] == forms[k]
  {
    var j := FindIndex(forms, HasId(u.id));
    assert j == i;
  }

  /** `deleteForm` removes every form with the id, keeps every other form and
      keeps their relative order. */
  lemma {:induction false} DeleteRemovesExactly(forms: seq<Form>, id: string)
    ensures var r := Filter(forms, IdIsNot(id));
      (forall k :: 0 <= k < |r| ==> r[k].id != id) &&
      (forall f :: f in forms && f.id != id ==> f in r) &&
      IsSubsequence(r, forms)
  {
    var r := Filter(forms, IdIsNot(id));
    forall k | 0 <= k < |r| ensures r[k].id != id {
      assert r[k] in r;
    }
    forall f | f in forms && f.id != id ensures f in r {
      FilterMembers(forms, IdIsNot(id), f);
    }
    FilterIsSubsequence(forms, IdIsNot(id));
  }

  /** Deleting an id no form has leaves the list as it is. */
  lemma {:induction false} DeleteAbsentIsNoop(forms: seq<Form>, id: string)
    requires IdUnused(forms, id)
    ensures Filter(forms, IdIsNot(id)) == forms
  {
    FilterAllKept(forms, IdIsNot(id));
  }

  /** `selectFormById`: the first form with the id, or none. */
  function SelectFormById(forms: seq<Form>, formId: string): (r: Option<Form>)
    ensures r.None? <==> IdUnused(forms, formId)
    ensures r.Some? ==> exists i :: 0 <= i < |forms| && forms[i] == r.value && r.value.id == formId &&
                                    forall k :: 0 <= k < i ==> forms[k].id != formId
  {
    Find(forms, HasId(formId))
  }

  class FormsState {
    var forms: seq<Form>
    var status: Status
    var error: Option<string>

    /** Every reducer keeps ids distinct (given a fresh id on `addForm`). */
    ghost predicate Valid()
      reads this
    {
      IdsDistinct(forms)
    }

    /** `initialState`: three sample forms, each with its own id and the time
        read when it was built, status idle, no error. */
    constructor (id1: string, id2: string, id3: string, t1: string, t2: string, t3: string)
      requires id1 != id2 && id1 != id3 && id2 != id3
      ensures forms == [Form(id1, "UserRegistration", "Form for new user registration", t1),
                        Form(id2, "ContactForm", "Contact us form for inquiries", t2),
                        Form(id3, "FeedbackSurvey", "Customer feedback survey form", t3)]
      ensures status == Idle && error == None
      ensures Valid()
    {
      forms := [Form(id1, "UserRegistration", "Form for new user registration", t1),
                Form(id2, "ContactForm", "Contact us form for inquiries", t2),
                Form(id3, "FeedbackSurvey", "Customer feedback survey form", t3)];
      status := Idle;
      error := None;
    }

    /** `addForm`: appends one form with the payload, the fresh id and the time. */
    method AddForm(payload: FormCreatePayload, freshId: string, now: string)
      requires IdUnused(forms, freshId)
      modifies this
      ensures forms == old(forms) + [NewForm(payload, freshId, now)]
      ensures status == old(status) && error == old(error)
      ensures old(Valid()) ==> Valid()
    {
      forms := forms + [NewForm(payload, freshId, now)];
    }

    /** `updateForm`: merges into the first form with the id, if any. */
    method UpdateForm(payload: FormUpdatePayload)
      modifies this
      ensures forms == UpdateById(old(forms), payload)
      ensures |forms| == |old(forms)|
      ensures forall k :: 0 <= k < |forms| ==> forms[k].id == old(forms)[k].id
      ensures status == old(status) && error == old(error)
      ensures old(Valid()) ==> Valid()
    {
      var index := FindIndex(forms, HasId(payload.id));
      if index != -1 {
        forms := forms[index := MergeForm(forms[index], payload)];
      }
    }

    /** `deleteForm`: keeps the forms with another id. Fields are not touched. */
    method DeleteForm(id: string)
      modifies this
      ensures forms == Filter(old(forms), IdIsNot(id))
      ensures status == old(status) && error == old(error)
      ensures old(Valid()) ==> Valid()
    {
      ghost var before := forms;
      forms := Filter(forms, IdIsNot(id));
      FilterIsSubsequence(before, IdIsNot(id));
      if IdsDistinct(before) {
        SubsequenceKeepsDistinct(forms, before, FormKey());
      }
    }

    method SetFormsLoading()
      modifies this
      ensures status == Loading && error == None && forms == old(forms)
    {
      status := Loading;
      error := None;
    }

    method SetFormsError(message: string)
      modifies this
      ensures status == Failed && error == Some(message) && forms == old(forms)
    {
      status := Failed;
      error := Some(message);
    }

    method SetFormsSuccess()
      modifies this
      ensures status == Succeeded && error == None && forms == old(forms)
    {
      status := Succeeded;
      error := None;
    }
  }
}
