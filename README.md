# Form builder core, modelled in Dafny

This project models the client-side core of a small form-builder web
application. Users create *forms*, each with a title and two flags, visible
and read-only. The flags are stored inside the form's free-text description.
A form holds a list of *fields*: label, input type, placeholder, required
flag, options and default value. The model covers these parts:

- the Redux store's two slices, forms and fields, and their reducers and
  selectors;
- the name validator;
- the description codec that stores and reads the two flags;
- drag-and-drop reordering of fields;
- the transfer of a new form's fields from its temporary id to its
  permanent one;
- the generic reducer helpers: object merge, loading, pagination and
  sorting;
- the field modal's state hook and the field-management hook;
- the form-mode flags;
- the routing middleware;
- the two generic form hooks and the modal hook.

Pure code is written as datatypes, functions and lemmas. Code that updates
state is written as classes with `modifies` clauses, such as the reducers
and the hooks' state setters. In those classes, state a reducer or `setState`
replaces is a field that the method reassigns. Methods are specified
against the functions of the pure part, and the properties are lemmas about
those functions.

Modules and files:

| file | module | models |
|---|---|---|
| `seqs.dfy` | `Wrappers`, `Seqs` | `Option` (`undefined`/`null`), JavaScript `filter`, `map`, `findIndex`, `find`, `some` |
| `strings.dfy` | `Strings` | `trim` (the ECMAScript white-space set), `includes`, `startsWith`, `split` |
| `api_types.dfy` | `ApiTypes` | the backend records (`types/api.ts`) |
| `validation.dfy` | `Validation` | `utils/validation.ts` |
| `forms_slice.dfy` | `FormsSlice` | `lib/redux/slices/formsSlice.ts` |
| `fields_slice.dfy` | `FieldsSlice` | `lib/redux/slices/fieldsSlice.ts` |
| `form_codec.dfy` | `FormCodec` | `utils/form.ts` |
| `drag_and_drop.dfy` | `DragAndDrop` | `hooks/useDragAndDrop.ts` |
| `form_id_manager.dfy` | `FormIdManager` | `utils/formIdManager.ts` |
| `state_utils.dfy` | `StateUtils` | `utils/state/stateUtils.ts` |
| `field_form.dfy` | `FieldForm` | `hooks/form/useFieldForm.ts` (the older, unused copy `hooks/useFieldForm.ts` has the same logic) |
| `field_management.dfy` | `FieldManagement` | `hooks/useFieldManagement.ts` |
| `form_mode.dfy` | `FormMode` | `hooks/useFormMode.ts` |
| `middleware.dfy` | `Middleware` | `middleware.ts` |
| `form_hook_core.dfy` | `FormHookCore` | what the two generic form hooks share |
| `use_form.dfy` | `UseForm` | `hooks/useForm.ts` |
| `use_form_submit_error.dfy` | `UseFormSubmitError` | `hooks/form/useForm.ts` |
| `use_modal.dfy` | `UseModal` | `hooks/useModal.ts` |

Modelling decisions:

- **Fresh values are parameters.** Ids from `uuidv4()` and timestamps from
  `new Date().toISOString()` are passed in. Each reducer that creates an
  entity requires its new id to be unused, so every reducer keeps ids
  distinct (`Valid()`).
- **Store dispatch.** A dispatch to the store is a method call on the slice
  object.
- **Present and absent properties.** A property present in a partial payload
  is `Some`; an absent one is `None`.
- **Two entity shapes.** The validator works on the backend's records, where
  a form has `name` and an optional `_id`. The slices use their own records,
  where a form has `title` and `id`. The source keeps the two apart, and so
  does the model.
- **Inferred record shapes.** `types/form.ts` does not declare `FormField`
  or `FieldFormValues`. Both shapes are taken from the code that builds
  them: `formIdManager.ts:34-42`, `useFieldManagement.ts:27-35` and
  `hooks/form/useFieldForm.ts:18-25`.
- **Error messages.** `validation.ts` names message constants that the
  constant files do not define. The validator's errors are therefore an
  enumeration of the four rules.
- **No cascade on form delete.** Deleting a form does not delete its fields
  (`formsSlice.ts:70-72`). The two call sites dispatch only `deleteForm`:
  `components/forms/FormList.tsx:88` and `hooks/form/useFormList.ts:55`.
  The model
  follows the code: `FormsSlice.FormsState.DeleteForm` does not touch
  fields. Bulk removal of a form's fields exists only as
  `FieldsSlice.FieldsState.DeleteFormFields`, with its lemmas.

## Model

| member | source | states |
|---|---|---|
| Validation.ShapeError | src/utils/validation.ts:5-7 | the name-only rules pass exactly when the name starts with A-Z and is all ASCII letters and digits; it never reports the uniqueness error |
| Validation.IsNameEmpty | src/utils/validation.ts:5 | a name is empty when it has no non-white-space character; stated by Validation.BlankFormNameIsRequired and Validation.CapitalizedIsNotBlank |
| Validation.IsNameCapitalized | src/utils/validation.ts:6 | the first character is A-Z; stated by Validation.UncapitalizedFormName and Validation.ShapeError |
| Validation.IsNameValidFormat | src/utils/validation.ts:7 | a non-empty name of ASCII letters and digits only; stated by Validation.BadlyFormattedFormName and Validation.ShapeError |
| Validation.IsFieldNameUnique | src/utils/validation.ts:9-10 | no field has the name; stated by Validation.FieldNameValidIff and Validation.FieldNameDuplicate |
| Validation.IsFormNameUnique | src/utils/validation.ts:12-13 | no form with another `_id` has the name; stated by Validation.FormNameUniqueErrorIff and Validation.ExcludedFormsAreIgnored |
| Validation.ValidateFieldName | src/utils/validation.ts:16-37 | the result carries an error exactly when it is not valid |
| Validation.ValidateFormName | src/utils/validation.ts:40-61 | the result carries an error exactly when it is not valid |
| Validation.CapitalizedIsNotBlank | src/utils/validation.ts:5-6 | a name starting with A-Z is never blank, so the capitalization rule implies the emptiness rule |
| Validation.BlankFormNameIsRequired | src/utils/validation.ts:45-47 | a form name made only of white space yields the required error, whatever the forms and the current id |
| Validation.BlankFieldNameIsRequired | src/utils/validation.ts:20-22 | a field name made only of white space yields the required error, whatever the fields |
| Validation.UncapitalizedFormName | src/utils/validation.ts:49-51 | a non-blank form name whose first character is not A-Z (a leading space included) yields the capitalization error, even if it is also badly formatted or a duplicate |
| Validation.UncapitalizedFieldName | src/utils/validation.ts:24-26 | the same for field names |
| Validation.BadlyFormattedFormName | src/utils/validation.ts:53-55 | a form name starting with A-Z that contains a character outside [A-Za-z0-9] yields the format error, before uniqueness is checked |
| Validation.BadlyFormattedFieldName | src/utils/validation.ts:28-30 | the same for field names |
| Validation.FormNameValidIff | src/utils/validation.ts:40-61 | a form name is valid if and only if it starts with A-Z, is all alphanumeric, and every form with exactly that name has `_id` equal to `currentFormId` |
| Validation.FormNameUniqueErrorIff | src/utils/validation.ts:12-13 | the uniqueness error is reported if and only if the name is well formed and some form with a different `_id` has it |
| Validation.RevalidateOwnName | src/utils/validation.ts:12-13 | a form re-validated under its own name, with its own `_id` as the current id, is valid when well formed and no other form shares the name |
| Validation.ExcludedFormsAreIgnored | src/utils/validation.ts:12-13 | removing the forms whose `_id` is the current id never changes the verdict |
| Validation.FieldNameDuplicate | src/utils/validation.ts:9-10 | any existing field with the identical, well-formed name yields the uniqueness error; there is no exclusion |
| Validation.FieldNameValidIff | src/utils/validation.ts:16-37 | a field name is valid if and only if it is well formed and no existing field has it |
| Validation.FirstFailingRuleWins | src/utils/validation.ts:44-61 | each of the four errors is returned exactly when all earlier rules pass and its own rule fails |
| FormsSlice.MergeForm | src/lib/redux/slices/formsSlice.ts:60-67 | the merged form keeps its id; each property comes from the payload when present and from the form otherwise |
| FormsSlice.NewForm | src/lib/redux/slices/formsSlice.ts:52-56 | the payload's title and description with the fresh id and time; stated by FormsSlice.FormsState.AddForm and FormCodec.StoredFormRoundTrip |
| FormsSlice.UpdateById | src/lib/redux/slices/formsSlice.ts:59-69 | the list after `updateForm`; stated by FormsSlice.UpdateAbsentIsNoop and FormsSlice.UpdatePresent |
| FormsSlice.UpdateAbsentIsNoop | src/lib/redux/slices/formsSlice.ts:61-63 | `updateForm` with an id no form has leaves the list unchanged |
| FormsSlice.UpdatePresent | src/lib/redux/slices/formsSlice.ts:59-69 | with a present id, only the first matching entry changes; it becomes the merge, and the length and its id are kept |
| FormsSlice.DeleteRemovesExactly | src/lib/redux/slices/formsSlice.ts:70-72 | after `deleteForm` no form has the id, every other form is kept, and the relative order is preserved |
| FormsSlice.DeleteAbsentIsNoop | src/lib/redux/slices/formsSlice.ts:70-72 | deleting an unknown id changes nothing |
| FormsSlice.SelectFormById | src/lib/redux/slices/formsSlice.ts:101-104 | none exactly when no form has the id; otherwise the first form with it |
| FormsSlice.FormsState.constructor | src/lib/redux/slices/formsSlice.ts:19-42 | the three sample forms with distinct ids and each its own creation time, status idle, no error |
| FormsSlice.FormsState.AddForm | src/lib/redux/slices/formsSlice.ts:51-58 | appends exactly one form with the payload's title and description, the fresh id and the time; status and error unchanged; ids stay distinct |
| FormsSlice.FormsState.UpdateForm | src/lib/redux/slices/formsSlice.ts:59-69 | the list becomes the merge at the first match, with the same length and ids; status and error unchanged |
| FormsSlice.FormsState.DeleteForm | src/lib/redux/slices/formsSlice.ts:70-72 | the list keeps exactly the forms with another id; status and error unchanged; ids stay distinct |
| FormsSlice.FormsState.SetFormsLoading | src/lib/redux/slices/formsSlice.ts:73-76 | status loading, no error, forms unchanged |
| FormsSlice.FormsState.SetFormsError | src/lib/redux/slices/formsSlice.ts:77-80 | status failed, the message recorded, forms unchanged |
| FormsSlice.FormsState.SetFormsSuccess | src/lib/redux/slices/formsSlice.ts:81-84 | status succeeded, no error, forms unchanged |
| FieldsSlice.MergeField | src/lib/redux/slices/fieldsSlice.ts:36-43 | the merged field keeps its id; each property comes from the payload when present and from the field otherwise |
| FieldsSlice.NewField | src/lib/redux/slices/fieldsSlice.ts:29-32 | the payload with the fresh id; stated by FieldsSlice.FieldsState.AddField and FormIdManager.CopiesAt |
| FieldsSlice.UpdateFieldById | src/lib/redux/slices/fieldsSlice.ts:35-45 | the list after `updateField`; stated by FieldsSlice.UpdateFieldEffect |
| FieldsSlice.UpdateFieldEffect | src/lib/redux/slices/fieldsSlice.ts:35-45 | `updateField` is a no-op for an unknown id; for a known id it replaces only the first match by its merge, with the same length |
| FieldsSlice.SelectFieldsByFormId | src/lib/redux/slices/fieldsSlice.ts:82-85 | every selected field belongs to the form |
| FieldsSlice.SelectFieldsByFormIdExact | src/lib/redux/slices/fieldsSlice.ts:82-85 | the selection is the order-preserving filter: a field is selected if and only if it belongs to the form, in store order |
| FieldsSlice.SelectFieldById | src/lib/redux/slices/fieldsSlice.ts:87-90 | none exactly when no field has the id; otherwise the first field with it |
| FieldsSlice.DeleteFieldExact | src/lib/redux/slices/fieldsSlice.ts:46-48 | `deleteField` keeps exactly the fields with another id, in order |
| FieldsSlice.DeleteFormFieldsExact | src/lib/redux/slices/fieldsSlice.ts:49-52 | after `deleteFormFields(f)` no field belongs to f, every field of another form is kept in order, and selecting f yields nothing |
| FieldsSlice.DeleteFormFieldsKeepsOtherForms | src/lib/redux/slices/fieldsSlice.ts:49-52 | the selection of every other form is unchanged |
| FieldsSlice.FieldsState.constructor | src/lib/redux/slices/fieldsSlice.ts:15-19 | no fields, status idle, no error |
| FieldsSlice.FieldsState.AddField | src/lib/redux/slices/fieldsSlice.ts:28-34 | appends exactly one field with the payload and the fresh id; status and error unchanged; ids stay distinct |
| FieldsSlice.FieldsState.UpdateField | src/lib/redux/slices/fieldsSlice.ts:35-45 | the list becomes the merge at the first match, with the same length and ids |
| FieldsSlice.FieldsState.DeleteField | src/lib/redux/slices/fieldsSlice.ts:46-48 | the list keeps exactly the fields with another id |
| FieldsSlice.FieldsState.DeleteFormFields | src/lib/redux/slices/fieldsSlice.ts:49-52 | the list keeps exactly the fields of other forms |
| FieldsSlice.FieldsState.SetFieldsLoading | src/lib/redux/slices/fieldsSlice.ts:53-56 | status loading, no error, fields unchanged |
| FieldsSlice.FieldsState.SetFieldsError | src/lib/redux/slices/fieldsSlice.ts:57-60 | status failed, the message recorded, fields unchanged |
| FieldsSlice.FieldsState.SetFieldsSuccess | src/lib/redux/slices/fieldsSlice.ts:61-64 | status succeeded, no error, fields unchanged |
| FormCodec.PrepareFormData | src/utils/form.ts:79-84 | the payload keeps the title, and its description reads back through `extractFormValues` as the values |
| FormCodec.ParseDescriptionProperty | src/utils/form.ts:12-20 | an empty description means visible and not read-only; otherwise a flag is on exactly when `<Name>: true` occurs; stated by FormCodec.EmptyDescriptionDefaults, FormCodec.ParseGeneratedVisible and FormCodec.ParseGeneratedReadOnly |
| FormCodec.GenerateFormDescription | src/utils/form.ts:91-93 | the description written for the two flags; stated by FormCodec.GeneratedFlagsInjective, FormCodec.ParseGeneratedVisible, FormCodec.ParseGeneratedReadOnly and FormCodec.GeneratedIsFormatted |
| FormCodec.GetInitialFormValues | src/utils/form.ts:28-42 | defaults without an id, otherwise the title and the flags parsed from the description; stated by FormCodec.NoIdGivesDefaults and FormCodec.UnformattedDiverges |
| FormCodec.ExtractFormValues | src/utils/form.ts:49-72 | defaults without an id; the parsed flags for a formatted description; visible and not read-only otherwise; stated by FormCodec.ExtractRoundTrip, FormCodec.UnformattedExtract and FormCodec.NoIdGivesDefaults |
| FormCodec.EmptyDescriptionDefaults | src/utils/form.ts:16 | an empty description reads as visible and not read-only |
| FormCodec.GeneratedFlagsInjective | src/utils/form.ts:91-93 | two values with the same generated description agree on both flags, so the description loses neither flag |
| FormCodec.ParseGeneratedVisible | src/utils/form.ts:18-19 | the visibility flag parsed from a generated description is the flag written |
| FormCodec.ParseGeneratedReadOnly | src/utils/form.ts:18-19 | the read-only flag parsed from a generated description is the flag written |
| FormCodec.GeneratedIsFormatted | src/utils/form.ts:57 | a generated description counts as formatted |
| FormCodec.ExtractRoundTrip | src/utils/form.ts:49-72 | `extractFormValues` on a form with an id, a title and a generated description returns that title and both flags |
| FormCodec.StoredFormRoundTrip | src/utils/form.ts:79-84 | a form stored by `addForm(prepareFormData(v))` reads back as v |
| FormCodec.NoIdGivesDefaults | src/utils/form.ts:30-32 | with no form, no id or the empty id, both readers return the defaults |
| FormCodec.UnformattedExtract | src/utils/form.ts:65-71 | a description with neither marker reads as visible and not read-only under `extractFormValues` |
| FormCodec.UnformattedDiverges | src/utils/form.ts:35-41 | on a non-empty description with neither marker, `getInitialFormValues` reads hidden and not read-only while `extractFormValues` reads visible |
| FormCodec.MarkerFreeDescriptionDiverges | src/utils/form.ts:35-72 | any non-empty description without a capital V and R, such as each sample description, shows that disagreement |
| DragAndDrop.MovedAt | src/hooks/useDragAndDrop.ts:56-58 | the moved entry sits at the target's index; entries between the two indices shift by one; all others keep their positions |
| DragAndDrop.Remove | src/hooks/useDragAndDrop.ts:56 | one entry shorter |
| DragAndDrop.Insert | src/hooks/useDragAndDrop.ts:58 | one entry longer |
| DragAndDrop.Moved | src/hooks/useDragAndDrop.ts:56-58 | same length, and the moved entry at the target index; the rest is stated by DragAndDrop.MovedAt, DragAndDrop.MovedPermutes and DragAndDrop.MovedInverse |
| DragAndDrop.DropResult | src/hooks/useDragAndDrop.ts:44-60 | a reordering only when an item is dragged onto another name, and of the same length; the rest is stated by DragAndDrop.DropResultSpec |
| DragAndDrop.MovedPermutes | src/hooks/useDragAndDrop.ts:56-58 | the reordered list is a permutation of the original |
| DragAndDrop.MovedInverse | src/hooks/useDragAndDrop.ts:56-58 | moving the entry back to where it came from restores the list |
| DragAndDrop.MovedInPlace | src/hooks/useDragAndDrop.ts:56-58 | moving an entry onto its own index changes nothing |
| DragAndDrop.DropResultSpec | src/hooks/useDragAndDrop.ts:44-60 | `onReorder` is called if and only if an item is dragged, the names differ and both names are in the list; it then receives a permutation in which the first item with the dragged name sits at the first index of the target's name |
| DragAndDrop.DropSides | src/hooks/useDragAndDrop.ts:49-58 | dragged forward, the item lands just after the target; dragged backward, just before |
| DragAndDrop.DropFirstOntoThird | src/hooks/useDragAndDrop.ts:56-58 | `[A,B,C,D]` with A dropped on C becomes `[B,C,A,D]` |
| DragAndDrop.DragState.constructor | src/hooks/useDragAndDrop.ts:13-14 | no dragged item, not dragging |
| DragAndDrop.DragState.HandleDragStart | src/hooks/useDragAndDrop.ts:28-29 | remembers the item and raises the dragging flag |
| DragAndDrop.DragState.HandleDrop | src/hooks/useDragAndDrop.ts:41-64 | returns exactly what `onReorder` receives; the state is reset only when it is called and untouched otherwise; the input list is a value and stays as it was |
| DragAndDrop.DragState.HandleDragEnd | src/hooks/useDragAndDrop.ts:72-73 | no dragged item, flag down |
| FormIdManager.CopiesAt | src/utils/formIdManager.ts:34-42 | each copy is its source field with the new form id and its fresh id; type, label, placeholder, required, options and default value are kept |
| FormIdManager.Copies | src/utils/formIdManager.ts:33-43 | one copy per given field |
| FormIdManager.SaveFieldsForNewForm | src/utils/formIdManager.ts:24-45 | an empty list changes nothing; otherwise the store becomes its fields outside the temporary form followed by one copy per given field, in order; ids stay distinct |
| FormIdManager.CleanupTemporaryFields | src/utils/formIdManager.ts:50-52 | the store keeps exactly the fields outside the temporary form |
| FormIdManager.TransferSelection | src/utils/formIdManager.ts:30-43 | after the transfer to an unused form id, that form's fields are exactly the copies in order, and the temporary form has none |
| FormIdManager.TransferKeepsOtherForms | src/utils/formIdManager.ts:31 | the fields of every other form are unchanged, in order |
| StateUtils.UpdateObject | src/utils/state/stateUtils.ts:8-10 | payload keys take the payload's values; every other key keeps the state's value; the keys are the union |
| StateUtils.UpdateObjectIdempotent | src/utils/state/stateUtils.ts:8-10 | applying the same update twice is applying it once |
| StateUtils.UpdateObjectCompose | src/utils/state/stateUtils.ts:8-10 | two updates in a row equal one update with the merged payload |
| StateUtils.UpdateObjectEmpty | src/utils/state/stateUtils.ts:8-10 | an empty payload leaves the state as it is |
| StateUtils.LoadingState.constructor | src/utils/state/stateUtils.ts:20-23 | not loading, no error |
| StateUtils.LoadingState.StartLoading | src/utils/state/stateUtils.ts:29-32 | loading, no error |
| StateUtils.LoadingState.LoadingSuccess | src/utils/state/stateUtils.ts:33-36 | not loading, no error |
| StateUtils.LoadingState.LoadingFailed | src/utils/state/stateUtils.ts:37-40 | not loading, the message recorded; an error is never recorded while loading |
| StateUtils.PaginationState.constructor | src/utils/state/stateUtils.ts:52-56 | page 1, limit 10, total 0 |
| StateUtils.PaginationState.SetPage | src/utils/state/stateUtils.ts:62-64 | only the page changes |
| StateUtils.PaginationState.SetLimit | src/utils/state/stateUtils.ts:65-69 | sets the limit, resets the page to 1, keeps the total |
| StateUtils.PaginationState.SetTotal | src/utils/state/stateUtils.ts:70-72 | only the total changes |
| StateUtils.Flip | src/utils/state/stateUtils.ts:99-100 | the flipped direction always differs from the old one |
| StateUtils.SortingState.constructor | src/utils/state/stateUtils.ts:83-86 | no column, ascending |
| StateUtils.SortingState.SetSorting | src/utils/state/stateUtils.ts:92-106 | on the current column the direction flips and any requested direction is ignored; on another column that column is set with the requested direction, ascending by default |
| StateUtils.SortingState.ResetSorting | src/utils/state/stateUtils.ts:107-110 | no column, ascending |
| StateUtils.SortingState.ToggleTwice | src/utils/state/stateUtils.ts:99-100 | two selections of the current column restore its direction |
| StateUtils.SortingState.SelectColumnTwice | src/utils/state/stateUtils.ts:96-105 | a new column selected twice ends in the opposite of the requested direction |
| FieldForm.FieldErrors | src/hooks/form/useFieldForm.ts:63-76 | a label error exactly when the label is blank; an options error exactly when the type is dropdown or radio and the options are missing or blank; no other key; the two fixed messages |
| FieldForm.ShowOptionsField | src/hooks/form/useFieldForm.ts:105 | only dropdown and radio fields show options; stated by FieldForm.OptionsIgnoredUnlessShown and FieldForm.FieldFormValidIff |
| FieldForm.WithInput | src/hooks/form/useFieldForm.ts:50-55 | the values after one input changes; stated by FieldForm.WithInputOnlyItsKey and FieldForm.RelabelFixesLabel |
| FieldForm.FieldFormValidIff | src/hooks/form/useFieldForm.ts:63-76 | the form is valid if and only if the label is not blank and a choice field has non-blank options |
| FieldForm.DefaultValuesErrors | src/hooks/form/useFieldForm.ts:27-34 | the default values fail only on the label |
| FieldForm.OptionsIgnoredUnlessShown | src/hooks/form/useFieldForm.ts:70 | for any type other than dropdown and radio the options never affect the errors |
| FieldForm.WithInputOnlyItsKey | src/hooks/form/useFieldForm.ts:50-55 | a change writes only its own input |
| FieldForm.RelabelFixesLabel | src/hooks/form/useFieldForm.ts:66-72 | a non-blank new label removes the label error and leaves the options error as it was |
| FieldForm.FieldFormState.constructor | src/hooks/form/useFieldForm.ts:27-34 | the default values, no errors, not submitting |
| FieldForm.FieldFormState.HandleChange | src/hooks/form/useFieldForm.ts:47-61 | stores the input (`checked` for the checkbox) and blanks that input's error only when it had a non-empty one; no other error changes |
| FieldForm.FieldFormState.ValidateForm | src/hooks/form/useFieldForm.ts:63-76 | replaces the errors by the computed ones and returns true if and only if there are none |
| FieldForm.FieldFormState.HandleSubmit | src/hooks/form/useFieldForm.ts:78-98 | `onSave` receives the values exactly when they are valid; the modal closes exactly when saving did not throw; `isSubmitting` ends down after a save |
| FieldForm.FieldFormState.ResetForm | src/hooks/form/useFieldForm.ts:100-103 | default values and no errors |
| FieldManagement.ParseOptions | src/hooks/useFieldManagement.ts:24 | undefined options stay undefined |
| FieldManagement.FieldPayload | src/hooks/useFieldManagement.ts:27-35 | the `addField` payload for the modal's values; stated by FieldManagement.FieldManager.AddFieldToForm and FieldManagement.AddedFieldIsSelected |
| FieldManagement.ParsedOptionsClean | src/hooks/useFieldManagement.ts:24 | every parsed option is non-empty, without surrounding white space or comma, and the trimmed text of one comma-separated piece |
| FieldManagement.ParsedOptionsComplete | src/hooks/useFieldManagement.ts:24 | no non-blank piece is dropped, the options keep the order of the text, and each option occurs exactly as often as among the trimmed pieces, so duplicates are kept and only empty texts are removed |
| FieldManagement.SingleOption | src/hooks/useFieldManagement.ts:24 | text without a comma gives its trimmed text as the only option, or no option when blank |
| FieldManagement.BlankPieceDropped | src/hooks/useFieldManagement.ts:24 | `"a, ,b"` gives `["a","b"]` |
| FieldManagement.FieldManager.AddFieldToForm | src/hooks/useFieldManagement.ts:22-36 | appends exactly one field with the hook's form id, the input's type, label, placeholder, required flag and default value, and the parsed options |
| FieldManagement.FieldManager.DeleteFieldFromForm | src/hooks/useFieldManagement.ts:41-45 | the empty id changes nothing; otherwise exactly the fields with that id are removed |
| FieldManagement.AddedFieldIsSelected | src/hooks/useFieldManagement.ts:27-35 | the added field is the last field selected for its form, after the earlier ones |
| FormMode.OneModeAtATime | src/hooks/useFormMode.ts:11-18 | exactly one of create, update and view is up |
| FormMode.UseFormMode | src/hooks/useFormMode.ts:10-19 | the four mode flags; stated by FormMode.OneModeAtATime, FormMode.ViewOnlyIff and FormMode.ReadOnlyMattersOnlyWhenUpdating |
| FormMode.ViewOnlyIff | src/hooks/useFormMode.ts:12 | read-only exactly in view mode, or in update mode for a read-only form; never when creating |
| FormMode.ReadOnlyMattersOnlyWhenUpdating | src/hooks/useFormMode.ts:12 | outside update mode the flags do not depend on the values |
| Middleware.Route | src/middleware.ts:16-17 | every redirect goes to `/forms` |
| Middleware.IsValidPath | src/middleware.ts:9 | `/forms` or `/forms/`; stated by Middleware.RouteIff |
| Middleware.IsValidFormsSubpath | src/middleware.ts:13 | longer than and starting with `/forms/`; stated by Middleware.RouteIff and Middleware.LookalikeRedirected |
| Middleware.RouteIff | src/middleware.ts:9-17 | a path passes if and only if it is `/forms` or starts with `/forms/` |
| Middleware.LookalikeRedirected | src/middleware.ts:12-17 | `/formsasdf` is redirected |
| Middleware.SamplePaths | src/middleware.ts:13-21 | `/forms/123` passes and `/` is redirected |
| Middleware.RedirectTargetPasses | src/middleware.ts:16-21 | the redirect target itself passes, so redirects never loop |
| FormHookCore.NewValue | src/hooks/useForm.ts:60 | a checkbox yields its `checked` flag, any other input its text |
| FormHookCore.FormIsValidIff | src/hooks/useForm.ts:96-100 | the form is submitted if and only if there is no validator or it reports no input |
| FormHookCore.AllTouched | src/hooks/useForm.ts:103-109 | every key of the values, and no other, is marked touched |
| UseForm.FormState.constructor | src/hooks/useForm.ts:26-30 | the initial values, no errors, nothing touched, both flags down; the ref holds the initial values |
| UseForm.FormState.UpdateInitialValues | src/hooks/useForm.ts:33-38 | only the ref moves to the new initial values |
| UseForm.FormState.SetValues | src/hooks/useForm.ts:137 | only the values change |
| UseForm.FormState.ResetForm | src/hooks/useForm.ts:43-50 | the latest initial values; no errors and nothing touched; both submission flags down |
| UseForm.FormState.HandleChange | src/hooks/useForm.ts:55-83 | stores the new value, marks the input touched, and re-validates the new values only once submitted |
| UseForm.FormState.HandleSubmit | src/hooks/useForm.ts:88-127 | with a validator, errors become its result; every key is touched and the form submitted; `onSubmit` gets the values exactly when valid; a throw is swallowed and `isSubmitting` ends down |
| UseFormSubmitError.FormState.constructor | src/hooks/form/useForm.ts:17-21 | the initial values, no errors, nothing touched, both flags down |
| UseFormSubmitError.FormState.UpdateInitialValues | src/hooks/form/useForm.ts:24-28 | only the ref moves to the new initial values |
| UseFormSubmitError.FormState.SetValues | src/hooks/form/useForm.ts:113 | only the values change |
| UseFormSubmitError.FormState.ResetForm | src/hooks/form/useForm.ts:30-36 | the latest initial values; no errors and nothing touched; both submission flags down |
| UseFormSubmitError.FormState.HandleChange | src/hooks/form/useForm.ts:38-65 | stores the new value, marks the input touched, and re-validates only once submitted |
| UseFormSubmitError.FormState.HandleSubmit | src/hooks/form/useForm.ts:67-103 | as in the other hook, except that a throwing `onSubmit` adds the `submit` message to the errors seen on entry and is rethrown; `isSubmitting` ends down |
| UseModal.Modal.constructor | src/hooks/useModal.ts:7-8 | closed, no data |
| UseModal.Modal.Open | src/hooks/useModal.ts:10-15 | opens; replaces the data exactly when an argument (`null` included) is given |
| UseModal.Modal.Close | src/hooks/useModal.ts:17-20 | closes and keeps the data |
| UseModal.Modal.Toggle | src/hooks/useModal.ts:22-24 | flips the open flag, keeps the data |
| UseModal.Modal.SetData | src/hooks/useModal.ts:32 | changes only the data |
| UseModal.Modal.ToggleTwice | src/hooks/useModal.ts:22-24 | two toggles restore the modal |
| UseModal.Modal.Reopen | src/hooks/useModal.ts:10-20 | closing and then opening without an argument shows the same data |

## Left out

- Rendering, DOM and browser details are not modelled: components, pages, drag image opacity, `setTimeout`, `dataTransfer`, `preventDefault`, `window.confirm` and `console.error` logging.
- Asynchrony and React scheduling are simplified. `await onSave`, `await onSubmit` and React's batched state updates become one atomic step per handler. Whether the callback throws is a parameter, and the callback's own effects belong to its caller.
- `FormIdManager.generateId` (`uuidv4()`) and the timestamps are not modelled; fresh values are parameters, with preconditions that they are unused.
- The network layer is not part of this model: the REST backend, RTK Query, `apiSlice.ts`, `useApi.ts` and the store setup.
- Middleware.Route: the URL origin of the redirect and the `config.matcher` path exclusions (`_next/`, `api/`, `favicon.ico`) are not modelled; the function decides on the path name alone.
- FieldForm.FieldFormState.HandleChange: requires that the only checkbox input is the required flag. A typed record cannot hold the boolean a checkbox would write into a text property, nor the text another input would write into the flag.
- UseFormSubmitError.FormState.HandleSubmit: on a throwing `onSubmit`, the `errors` spread in the handler is taken to be the errors at the time of the call. The source uses the value captured when the callback was last created, which can be older because `errors` is not among the callback's dependencies.
- UseForm.FormState.HandleChange: input values are booleans or strings only. The generic hooks accept records of any value type, and values of other types (numbers, nested objects) are not modelled.
- StateUtils.PaginationState.SetPage: page, limit and total are unbounded integers, not JavaScript numbers (fractions, NaN).
- FormsSlice.MergeForm: a payload property present with the value `undefined` is treated as absent. The spread in the source would write `undefined` into the form.
- FieldsSlice.MergeField: the same simplification for field payloads.
- FormCodec.ParseDescriptionProperty: `Strings.Contains` compares characters, while JavaScript `includes` compares UTF-16 code units. The markers are plain ASCII, so the answers agree for them.
- Validation.IsNameEmpty: white space is the concrete ECMAScript set (`Strings.IsSpace`), not an abstract predicate.
- Cascading deletion of a form's fields is left out. The source does not perform it, so the model does not either; see the note above.
