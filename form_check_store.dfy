/** `stores/formCheck.ts`: the `form` store, which lets a page ask its form to validate itself and
    records whether the form is valid. */
module FormCheckStore {

  /** The store's state. */
  datatype FormState = FormState(triggerValidation: bool, isValid: bool)

  const Initial := FormState(false, false)

  /** `validateForm`: flip the trigger; validity is untouched. */
  function ValidateFormStep(s: FormState): (r: FormState)
    ensures r.triggerValidation == !s.triggerValidation && r.isValid == s.isValid
  {
    s.(triggerValidation := !s.triggerValidation)
  }

  /** `setValid`: flips validity rather than setting it; the trigger is untouched. */
  function SetValidStep(s: FormState): (r: FormState)
    ensures r.isValid == !s.isValid && r.triggerValidation == s.triggerValidation
  {
    s.(isValid := !s.isValid)
  }

  /** `setInvalid`: validity becomes false; the trigger is untouched. */
  function SetInvalidStep(s: FormState): (r: FormState)
    ensures !r.isValid && r.triggerValidation == s.triggerValidation
  {
    s.(isValid := false)
  }

  /** Because `setValid` toggles, a second call undoes the first, and from the initial state a
      single call is needed to mark the form valid. */
  lemma SetValidTwice(s: FormState)
    ensures SetValidStep(SetValidStep(s)) == s
    ensures SetValidStep(Initial).isValid
  {
  }

  /** `setInvalid` is idempotent, and it absorbs any earlier `setValid`. */
  lemma SetInvalidIdempotent(s: FormState)
    ensures SetInvalidStep(SetInvalidStep(s)) == SetInvalidStep(s)
    ensures SetInvalidStep(SetValidStep(s)) == SetInvalidStep(s)
  {
  }

  /** The Pinia store object. */
  class FormCheck {
    var triggerValidation: bool
    var isValid: bool

    function State(): FormState
      reads this
    {
      FormState(triggerValidation, isValid)
    }

    constructor ()
      ensures State() == Initial
    {
      triggerValidation := false;
      isValid := false;
    }

    method ValidateForm()
      modifies this
      ensures State() == ValidateFormStep(old(State()))
    {
      triggerValidation := !triggerValidation;
    }

    method SetValid()
      modifies this
      ensures State() == SetValidStep(old(State()))
    {
      isValid := !isValid;
    }

    method SetInvalid()
      modifies this
      ensures State() == SetInvalidStep(old(State()))
    {
      isValid := false;
    }
  }
}
