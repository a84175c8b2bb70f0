/** The registration form: required-field validation, the single-key
    update of an edited field, and the submit gate. The form data lives in
    the parent page; the component keeps the errors and the submitting
    flag. */
module DynamicForm {
  import opened Wrappers
  import opened JsValue
  import opened Records

  /** Among the fields, `i` is the last required one with id `k`. */
  predicate LastRequired(fields: seq<Field>, k: string, i: int) {
    0 <= i < |fields| && fields[i].id == k && fields[i].required &&
    forall j :: i < j < |fields| ==> !(fields[j].id == k && fields[j].required)
  }

  /** The errors `validateForm` records: for each required field whose
      value is falsy, `<label> is required` under its id; a later field
      with the same id overwrites an earlier one. */
  function RequiredErrors(fields: seq<Field>, data: map<string, Value>): map<string, string> {
    if fields == [] then map[]
    else
      var f := fields[|fields| - 1];
      var prev := RequiredErrors(fields[..|fields| - 1], data);
      if f.required && !Truthy(Get(data, f.id)) then prev[f.id := f.labelText + " is required"] else prev
  }

  /** An id has an error exactly when some required field with that id
      has a falsy value; non-required fields never cause one. */
  lemma {:induction false} RequiredErrorsKeys(fields: seq<Field>, data: map<string, Value>, k: string)
    ensures k in RequiredErrors(fields, data) <==>
      exists i :: 0 <= i < |fields| && fields[i].id == k && fields[i].required && !Truthy(Get(data, k))
  {
    if fields != [] {
      var prefix := fields[..|fields| - 1];
      RequiredErrorsKeys(prefix, data, k);
      assert forall i :: 0 <= i < |prefix| ==> prefix[i] == fields[i];
    }
  }

  /** The message under an id is that of the last required field with
      that id. */
  lemma {:induction false} RequiredErrorsMessage(fields: seq<Field>, data: map<string, Value>, k: string, i: int)
    requires k in RequiredErrors(fields, data) && LastRequired(fields, k, i)
    ensures RequiredErrors(fields, data)[k] == fields[i].labelText + " is required"
  {
    var last := |fields| - 1;
    var prefix := fields[..last];
    if i < last {
      var f := fields[last];
      assert !(f.id == k && f.required);
      assert prefix[i] == fields[i];
      assert LastRequired(prefix, k, i);
      assert k in RequiredErrors(prefix, data);
      RequiredErrorsMessage(prefix, data, k, i);
    } else {
      RequiredErrorsKeys(fields, data, k);
    }
  }

  /** The form is valid exactly when every required field has a truthy
      value. */
  lemma ValidIffRequiredFilled(fields: seq<Field>, data: map<string, Value>)
    ensures RequiredErrors(fields, data) == map[] <==>
      forall i :: 0 <= i < |fields| && fields[i].required ==> Truthy(Get(data, fields[i].id))
  {
    var r := RequiredErrors(fields, data);
    if r == map[] {
      forall i | 0 <= i < |fields| && fields[i].required
        ensures Truthy(Get(data, fields[i].id))
      {
        RequiredErrorsKeys(fields, data, fields[i].id);
      }
    } else {
      var k :| k in r;
      RequiredErrorsKeys(fields, data, k);
    }
  }

  /** The `forEach` of `validateForm` that fills `newErrors`. */
  method CollectErrors(fields: seq<Field>, data: map<string, Value>) returns (newErrors: map<string, string>)
    ensures newErrors == RequiredErrors(fields, data)
  {
    newErrors := map[];
    var i := 0;
    while i < |fields|
      invariant 0 <= i <= |fields|
      invariant newErrors == RequiredErrors(fields[..i], data)
    {
      var field := fields[i];
      assert fields[..i + 1][..i] == fields[..i];
      if field.required && !Truthy(Get(data, field.id)) {
        newErrors := newErrors[field.id := field.labelText + " is required"];
      }
      i := i + 1;
    }
    assert fields[..|fields|] == fields;
  }

  /** An error entry is `null` once the user edits the field again. */
  function AsShown(errs: map<string, string>): (r: map<string, Option<string>>)
    ensures r.Keys == errs.Keys
    ensures forall k | k in r :: r[k] == Some(errs[k])
  {
    map k | k in errs :: Some(errs[k])
  }

  class FormState {
    var errors: map<string, Option<string>>
    var isSubmitting: bool

    constructor()
      ensures errors == map[] && !isSubmitting
    {
      errors := map[];
      isSubmitting := false;
    }

    /** `errors[fieldId]` is truthy. */
    predicate HasError(fieldId: string)
      reads this
    {
      fieldId in errors && errors[fieldId].Some? && errors[fieldId].value != ""
    }

    /** `handleInputChange`: the parent, when it listens, receives the
        form data with only that key changed; a shown error of that field
        is cleared and every other error stays. */
    method HandleInputChange(formData: map<string, Value>, fieldId: string, value: Value, hasOnFormChange: bool)
      returns (sent: Option<map<string, Value>>)
      modifies this
      ensures hasOnFormChange <==> sent.Some?
      ensures sent.Some? ==> sent.value == With(formData, fieldId, value)
      ensures old(HasError(fieldId)) ==> errors == old(errors)[fieldId := None]
      ensures !old(HasError(fieldId)) ==> errors == old(errors)
      ensures !HasError(fieldId)
      ensures forall k | k != fieldId :: HasError(k) == old(HasError(k))
      ensures isSubmitting == old(isSubmitting)
    {
      sent := if hasOnFormChange then Some(With(formData, fieldId, value)) else None;
      if HasError(fieldId) {
        errors := errors[fieldId := None];
      }
    }

    /** `validateForm`: the errors are replaced by the recorded ones, and
        the form is valid iff none was recorded. */
    method ValidateForm(fields: seq<Field>, formData: map<string, Value>) returns (valid: bool)
      modifies this
      ensures errors == AsShown(RequiredErrors(fields, formData))
      ensures valid <==> RequiredErrors(fields, formData) == map[]
      ensures isSubmitting == old(isSubmitting)
    {
      var newErrors := CollectErrors(fields, formData);
      errors := AsShown(newErrors);
      valid := |newErrors| == 0;
    }

    /** `handleSubmit`: `onSubmit` receives the form data only when the
        form is valid; whether it throws or not, the submitting flag then
        ends false. An invalid form returns before touching the flag. */
    method HandleSubmit(fields: seq<Field>, formData: map<string, Value>) returns (submitted: Option<map<string, Value>>)
      modifies this
      ensures submitted.Some? <==> RequiredErrors(fields, formData) == map[]
      ensures submitted.Some? ==> submitted.value == formData && !isSubmitting
      ensures submitted.None? ==> isSubmitting == old(isSubmitting)
      ensures errors == AsShown(RequiredErrors(fields, formData))
    {
      var valid := ValidateForm(fields, formData);
      if !valid {
        return None;
      }
      isSubmitting := true;
      submitted := Some(formData);
      isSubmitting := false;
    }
  }
}
