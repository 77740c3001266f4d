/** The order form component: its four pieces of state and the handlers that
    replace them. */
module Form {
  import opened Draft
  import opened Validation
  import opened Message

  /** Writes every failure, in the order reported, into a fresh error map, so
      that a later message for a path overwrites an earlier one. */
  method CollectErrors(fs: seq<Failure>) returns (errors: map<Field, string>)
    ensures errors == ErrorMapOf(fs)
  {
    errors := map[];
    var i := 0;
    while i < |fs|
      invariant 0 <= i <= |fs|
      invariant errors == ErrorMapOf(fs[..i])
    {
      assert fs[..i + 1][..i] == fs[..i];
      errors := errors[fs[i].path := fs[i].message];
      i := i + 1;
    }
    assert fs[..|fs|] == fs;
  }

  class OrderForm {
    var formData: Draft
    var errors: map<Field, string>
    var isSubmitting: bool
    var successMessage: string

    /** The form as mounted: an empty draft, no errors, no message. */
    constructor ()
      ensures formData == EmptyDraft && errors == map[]
      ensures !isSubmitting && successMessage == ""
    {
      formData := EmptyDraft;
      errors := map[];
      isSubmitting := false;
      successMessage := "";
    }

    /** Whether the submit button is enabled. */
    predicate IsFormValid(): (r: bool)
      reads this
      ensures r <==> |formData.fullName| >= 3 && Size !in Validate(formData)
    {
      EligibleIff(formData);
      Eligible(formData)
    }

    /** The text input or the size select changed: that field takes the new
      value, the rest of the draft and the other state stay as they were. */
    method HandleChange(name: TextField, value: string)
      modifies this
      ensures name == NameInput ==> formData == old(formData).(fullName := value)
      ensures name == SizeSelect ==> formData == old(formData).(size := value)
      ensures errors == old(errors) && isSubmitting == old(isSubmitting)
      ensures successMessage == old(successMessage)
    {
      match name
      case NameInput => formData := formData.(fullName := value);
      case SizeSelect => formData := formData.(size := value);
    }

    /** A topping checkbox changed: a check appends its name, an uncheck
      filters every occurrence out; name and size stay as they were. */
    method HandleCheckboxChange(name: string, checked: bool)
      modifies this
      ensures formData == old(formData).(toppings := Toggled(old(formData.toppings), name, checked))
      ensures errors == old(errors) && isSubmitting == old(isSubmitting)
      ensures successMessage == old(successMessage)
    {
      if checked {
        formData := formData.(toppings := formData.toppings + [name]);
      } else {
        formData := formData.(toppings := Without(formData.toppings, name));
      }
    }

    /** Submitting validates the whole draft. When it passes, the errors are
      cleared, the thank-you message is set and the draft is reset; when it
      fails, the errors become the failures' map and the draft and the
      previous message stay. Either way the form is not left submitting. */
    method HandleSubmit()
      modifies this
      ensures Validate(old(formData)) == map[] ==>
                && formData == EmptyDraft
                && errors == map[]
                && successMessage == SuccessMessage(old(formData))
      ensures Validate(old(formData)) != map[] ==>
                && formData == old(formData)
                && errors == Validate(old(formData))
                && successMessage == old(successMessage)
      ensures !isSubmitting
    {
      var failures := Failures(formData);
      if failures == [] {
        isSubmitting := true;
        errors := map[];
        var message := ComposeSuccessMessage(formData);
        successMessage := message;
        formData := EmptyDraft;
        isSubmitting := false;
      } else {
        isSubmitting := false;
        var newErrors := CollectErrors(failures);
        errors := newErrors;
      }
    }
  }
}
