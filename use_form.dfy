/** The generic form hook `hooks/useForm.ts`: values, errors, touched inputs
    and the two submission flags, with `onSubmit` failures swallowed. The
    `initialValues` prop is tracked by a ref; whether `onSubmit` throws is a
    parameter of `HandleSubmit`. */
module UseForm {
  import opened Wrappers
  import opened FormHookCore

  class FormState {
    const validate: Validator
    var initialValuesRef: Values
    var values: Values
    var errors: Errors
    var touched: map<string, bool>
    var isSubmitting: bool
    var isSubmitted: bool

    /** The hook's first render. */
    constructor (initialValues: Values, validate: Validator)
      ensures this.validate == validate && initialValuesRef == initialValues
      ensures values == initialValues && errors == map[] && touched == map[]
      ensures !isSubmitting && !isSubmitted
    {
      this.validate := validate;
      initialValuesRef := initialValues;
      values := initialValues;
      errors := map[];
      touched := map[];
      isSubmitting := false;
      isSubmitted := false;
    }

    /** The effect that follows a new `initialValues` prop: only the ref moves. */
    method UpdateInitialValues(initialValues: Values)
      modifies this
      ensures initialValuesRef == initialValues
      ensures values == old(values) && errors == old(errors) && touched == old(touched)
      ensures isSubmitting == old(isSubmitting) && isSubmitted == old(isSubmitted)
    {
      initialValuesRef := initialValues;
    }

    /** The returned `setValues`. */
    method SetValues(newValues: Values)
      modifies this
      ensures values == newValues && initialValuesRef == old(initialValuesRef)
      ensures errors == old(errors) && touched == old(touched)
      ensures isSubmitting == old(isSubmitting) && isSubmitted == old(isSubmitted)
    {
      values := newValues;
    }

    /** `resetForm`: back to the latest initial values, nothing touched,
        nothing submitted. */
    method ResetForm()
      modifies this
      ensures values == old(initialValuesRef) && initialValuesRef == old(initialValuesRef)
      ensures errors == map[] && touched == map[] && !isSubmitting && !isSubmitted
    {
      values := initialValuesRef;
      errors := map[];
      touched := map[];
      isSubmitting := false;
      isSubmitted := false;
    }

    /** `handleChange`: stores the input's new value, marks it touched and,
        once the form has been submitted, re-validates the whole form. */
    method HandleChange(name: string, inputType: string, value: string, checked: bool)
      modifies this
      ensures values == old(values)[name := NewValue(inputType, value, checked)]
      ensures touched == old(touched)[name := true]
      ensures validate.Some? && old(isSubmitted) ==> errors == validate.value(values)
      ensures !(validate.Some? && old(isSubmitted)) ==> errors == old(errors)
      ensures isSubmitting == old(isSubmitting) && isSubmitted == old(isSubmitted)
      ensures initialValuesRef == old(initialValuesRef)
    {
      var newValue := NewValue(inputType, value, checked);
      var current := values;
      values := values[name := newValue];
      touched := touched[name := true];
      if validate.Some? && isSubmitted {
        errors := validate.value(current[name := newValue]);
      }
    }

    /** `handleSubmit`: validates, touches every input, marks the form
        submitted and calls `onSubmit` with the values when valid. A throwing
        `onSubmit` is caught and only logged, so `submitThrows` does not
        affect the outcome; it is kept so that both form hooks have the same
        signature. Returns what `onSubmit` received. */
    method HandleSubmit(submitThrows: bool) returns (submitted: Option<Values>)
      modifies this
      ensures validate.Some? ==> errors == validate.value(old(values))
      ensures validate.None? ==> errors == old(errors)
      ensures touched == TouchedAll(old(values)) && isSubmitted
      ensures submitted.Some? <==> FormIsValid(validate, old(values))
      ensures submitted.Some? ==> submitted.value == old(values)
      ensures isSubmitting == (if submitted.Some? then false else old(isSubmitting))
      ensures values == old(values) && initialValuesRef == old(initialValuesRef)
    {
      var formIsValid := true;
      var validationErrors: Errors := map[];
      if validate.Some? {
        validationErrors := validate.value(values);
        formIsValid := |validationErrors| == 0;
        errors := validationErrors;
      }
      var allTouched := AllTouched(values);
      touched := allTouched;
      isSubmitted := true;
      submitted := None;
      if formIsValid {
        isSubmitting := true;
        submitted := Some(values);
        isSubmitting := false;
      }
    }
  }
}
