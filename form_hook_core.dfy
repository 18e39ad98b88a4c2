/** What the two generic form hooks (`hooks/useForm.ts` and
    `hooks/form/useForm.ts`) share: a record of input values keyed by input
    name, an optional whole-form validator, and the "touch every field" step
    of submission. */
module FormHookCore {
  import opened Wrappers

  /** An input's value: a checkbox's `checked`, or any other input's text. */
  datatype Value = Checked(checked: bool) | Text(text: string)

  type Values = map<string, Value>

  /** `Partial<Record<keyof T, string>>`: one message per offending input. */
  type Errors = map<string, string>

  /** The optional `validate` prop. */
  type Validator = Option<Values -> Errors>

  /** `type === 'checkbox' ? checked : value`. */
  function NewValue(inputType: string, value: string, checked: bool): (v: Value)
    ensures v.Checked? <==> inputType == "checkbox"
    ensures v.Checked? ==> v.checked == checked
    ensures v.Text? ==> v.text == value
  {
    if inputType == "checkbox" then Checked(checked) else Text(value)
  }

  /** The errors `handleSubmit` computes: none without a validator. */
  function SubmitErrors(validate: Validator, values: Values): (e: Errors)
    ensures validate.None? ==> e == map[]
  {
    if validate.Some? then validate.value(values) else map[]
  }

  /** `formIsValid`: no validator, or a validator with nothing to report. */
  predicate FormIsValid(validate: Validator, values: Values)
  {
    |SubmitErrors(validate, values)| == 0
  }

  /** A form without a validator is always submitted; with one, exactly when
      it reports no input. */
  lemma FormIsValidIff(validate: Validator, values: Values)
    ensures FormIsValid(validate, values) <==>
              validate.None? || forall k :: k !in validate.value(values)
  {
    var e := SubmitErrors(validate, values);
    if |e| > 0 {
      var k :| k in e;
    }
  }

  /** `{ [key]: true }` for every key of the values. */
  function TouchedAll(values: Values): map<string, bool>
  {
    map k | k in values.Keys :: true
  }

  /** `Object.keys(values).reduce((acc, key) => { acc[key] = true; ... }, {})`:
      a fresh record marking every input of `values` as touched, and no other. */
  method AllTouched(values: Values) returns (acc: map<string, bool>)
    ensures acc == TouchedAll(values)
  {
    acc := map[];
    var keys := values.Keys;
    while keys != {}
      invariant keys <= values.Keys
      invariant acc.Keys == values.Keys - keys
      invariant forall k :: k in acc ==> acc[k]
      decreases |keys|
    {
      var key :| key in keys;
      acc := acc[key := true];
      keys := keys - {key};
    }
  }
}
