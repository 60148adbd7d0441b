/** `utils/validator.rs`: the blank-field check every update handler runs before any query. */
module Validator {
  import opened Wrappers
  import opened Text

  /** `validate_field`: an absent field passes; a present field fails with `errorMessage`
      exactly when trimming leaves nothing of it. */
  function ValidateField(field: Option<string>, errorMessage: string): (r: Outcome<string>)
    ensures r.Fail? <==> field.Some? && IsBlank(field.value)
    ensures r.Fail? ==> r.error == errorMessage
  {
    match field
    case None => Pass
    case Some(value) =>
      TrimEmptyIffBlank(value);
      if Trim(value) == [] then Fail(errorMessage) else Pass
  }

  /** A field the validator rejects: present and made only of white space. */
  predicate PresentBlank(field: Option<string>) {
    field.Some? && IsBlank(field.value)
  }

  /** One `validate_field(&body.<field>, "<message>")?` line of an entity validator. */
  datatype Check = Check(field: Option<string>, errorMessage: string)

  /** A chain of `validate_field(..)?` lines followed by `Ok(())`: the first failing line returns its
      message, and the chain passes when no field is present and blank. */
  function ValidateInOrder(checks: seq<Check>): (r: Outcome<string>)
    ensures r.Pass? <==> forall k :: 0 <= k < |checks| ==> !PresentBlank(checks[k].field)
  {
    if checks == [] then Pass
    else
      match ValidateField(checks[0].field, checks[0].errorMessage)
      case Fail(message) => Fail(message)
      case Pass =>
        var rest := ValidateInOrder(checks[1..]);
        assert forall k :: 1 <= k < |checks| ==> checks[k] == checks[1..][k - 1];
        rest
  }

  /** Check `k` is the first whose field is present and blank. */
  predicate FirstBlank(checks: seq<Check>, k: nat)
    requires k < |checks|
  {
    PresentBlank(checks[k].field) && forall j :: 0 <= j < k ==> !PresentBlank(checks[j].field)
  }

  /** The first present-and-blank field decides the message, whatever follows it. */
  lemma {:induction false} FirstBlankDecides(checks: seq<Check>, k: nat)
    requires k < |checks| && FirstBlank(checks, k)
    ensures ValidateInOrder(checks) == Fail(checks[k].errorMessage)
  {
    if k > 0 {
      assert !PresentBlank(checks[0].field);
      assert forall j :: 0 <= j < k - 1 ==> checks[1..][j] == checks[j + 1];
      FirstBlankDecides(checks[1..], k - 1);
    }
  }

  /** `FirstBlankDecides` for every position at once. */
  lemma FirstBlankDecidesAll(checks: seq<Check>)
    ensures forall k :: 0 <= k < |checks| && FirstBlank(checks, k) ==> ValidateInOrder(checks) == Fail(checks[k].errorMessage)
  {
    forall k | 0 <= k < |checks| && FirstBlank(checks, k)
      ensures ValidateInOrder(checks) == Fail(checks[k].errorMessage)
    {
      FirstBlankDecides(checks, k);
    }
  }
}
