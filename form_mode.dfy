/** The flags the form modal derives from its mode (`hooks/useFormMode.ts`). */
module FormMode {
  import FormCodec

  /** `FormModalMode`. */
  datatype FormModalMode = Create | Update | View

  datatype ModeFlags = ModeFlags(isUpdateMode: bool, isViewOnly: bool, isCreateMode: bool, isViewMode: bool)

  /** `useFormMode`. */
  function UseFormMode(mode: FormModalMode, initialValues: FormCodec.FormValues): ModeFlags
  {
    var isUpdateMode := mode == Update;
    ModeFlags(isUpdateMode,
              mode == View || (isUpdateMode && initialValues.isReadOnly),
              mode == Create,
              mode == View)
  }

  /** Exactly one of the three mode flags is up. */
  lemma OneModeAtATime(mode: FormModalMode, initialValues: FormCodec.FormValues)
    ensures var f := UseFormMode(mode, initialValues);
      (f.isCreateMode || f.isUpdateMode || f.isViewMode) &&
      !(f.isCreateMode && f.isUpdateMode) && !(f.isCreateMode && f.isViewMode) &&
      !(f.isUpdateMode && f.isViewMode)
  {
  }

  /** The modal is read-only exactly in the view mode and when updating a
      form marked read-only; creating is never read-only. */
  lemma ViewOnlyIff(mode: FormModalMode, initialValues: FormCodec.FormValues)
    ensures UseFormMode(mode, initialValues).isViewOnly <==>
              mode == View || (mode == Update && initialValues.isReadOnly)
    ensures mode == Create ==> !UseFormMode(mode, initialValues).isViewOnly
  {
  }

  /** The read-only flag of the values is looked at in the update mode only. */
  lemma ReadOnlyMattersOnlyWhenUpdating(mode: FormModalMode, a: FormCodec.FormValues, b: FormCodec.FormValues)
    requires mode != Update
    ensures UseFormMode(mode, a) == UseFormMode(mode, b)
  {
  }
}
