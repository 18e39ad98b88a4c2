/** The generic form hook `hooks/form/useForm.ts`: the same state and
    handlers as `hooks/useForm.ts`, except that a failing `onSubmit` records a
    `submit` error and is rethrown to the caller. */
module UseFormSubmitError {
  import opened Wrappers
  import opened FormHookCore

  const SubmitKey := "submit"
  const SubmitFailed := "An error occurred while submitting the form"

  class FormState {
    const validate: Validator
    var initialValuesRef: Values
    var values: Values
    var errors: Errors
    var touched: map<string, bool>
    var isSubmitting: bool
    var isSubmitted: bool

    /** The hook's first render. */
    constructor (initialValues: Values, validate: Validator)
      ensures this.validate == validate && initialValuesRef == initialValues
      ensures values == initialValues && errors == map[] && touched == map[]
      ensures !isSubmitting && !isSubmitted
    {
      this.validate := validate;
      initialValuesRef := initialValues;
      values := initialValues;
      errors := map[];
      touched := map[];
      isSubmitting := false;
      isSubmitted := false;
    }

    /** The effect that follows a new `initialValues` prop: only the ref moves. */
    method UpdateInitialValues(initialValues: Values)
      modifies this
      ensures initialValuesRef == initialValues
      ensures values == old(values) && errors == old(errors) && touched == old(touched)
      ensures isSubmitting == old(isSubmitting) && isSubmitted == old(isSubmitted)
    {
      initialValuesRef := initialValues;
    }

    /** The returned `setValues`. */
    method SetValues(newValues: Values)
      modifies this
      ensures values == newValues && initialValuesRef == old(initialValuesRef)
      ensures errors == old(errors) && touched == old(touched)
      ensures isSubmitting == old(isSubmitting) && isSubmitted == old(isSubmitted)
    {
      values := newValues;
    }

    /** `resetForm`: back to the latest initial values, nothing touched,
        nothing submitted. */
    method ResetForm()
      modifies this
      ensures values == old(initialValuesRef) && initialValuesRef == old(initialValuesRef)
      ensures errors == map[] && touched == map[] && !isSubmitting && !isSubmitted
    {
      values := initialValuesRef;
      errors := map[];
      touched := map[];
      isSubmitting := false;
      isSubmitted := false;
    }

    /** `handleChange`: stores the input's new value, marks it touched and,
        once the form has been submitted, re-validates the whole form. */
    method HandleChange(name: string, inputType: string, value: string, checked: bool)
      modifies this
      ensures values == old(values)[name := NewValue(inputType, value, checked)]
      ensures touched == old(touched)[name := true]
      ensures validate.Some? && old(isSubmitted) ==> errors == validate.value(values)
      ensures !(validate.Some? && old(isSubmitted)) ==> errors == old(errors)
      ensures isSubmitting == old(isSubmitting) && isSubmitted == old(isSubmitted)
      ensures initialValuesRef == old(initialValuesRef)
    {
      var newValue := NewValue(inputType, value, checked);
      var current := values;
      values := values[name := newValue];
      touched := touched[name := true];
      if validate.Some? && isSubmitted {
        errors := validate.value(current[name := newValue]);
      }
    }

    /** `handleSubmit`: validates, touches every input, marks the form
        submitted and calls `onSubmit` with the values when valid. When
        `onSubmit` throws, the errors become those the handler saw on entry
        plus the `submit` message, and the failure is rethrown. */
    method HandleSubmit(submitThrows: bool) returns (submitted: Option<Values>, rethrown: bool)
      modifies this
      ensures rethrown <==> submitted.Some? && submitThrows
      ensures rethrown ==> errors == old(errors)[SubmitKey := SubmitFailed]
      ensures !rethrown && validate.Some? ==> errors == validate.value(old(values))
      ensures !rethrown && validate.None? ==> errors == old(errors)
      ensures touched == TouchedAll(old(values)) && isSubmitted
      ensures submitted.Some? <==> FormIsValid(validate, old(values))
      ensures submitted.Some? ==> submitted.value == old(values)
      ensures isSubmitting == (if submitted.Some? then false else old(isSubmitting))
      ensures values == old(values) && initialValuesRef == old(initialValuesRef)
    {
      var errorsSeen := errors;
      var formIsValid := true;
      var validationErrors: Errors := map[];
      if validate.Some? {
        validationErrors := validate.value(values);
        formIsValid := |validationErrors| == 0;
        errors := validationErrors;
      }
      var allTouched := AllTouched(values);
      touched := allTouched;
      isSubmitted := true;
      submitted := None;
      rethrown := false;
      if formIsValid {
        isSubmitting := true;
        submitted := Some(values);
        if submitThrows {
          errors := errorsSeen[SubmitKey := SubmitFailed];
          rethrown := true;
        }
        isSubmitting := false;
      }
    }
  }
}
