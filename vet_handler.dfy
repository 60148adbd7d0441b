/** `handlers/vet_handler.rs`: the body check of `update_vet` and the replies of the vet handlers. */
module VetHandler {
  import opened Wrappers
  import opened Http
  import opened Validator
  import opened Handlers

  /** The `UpdateVet` request body: every column optional. */
  datatype VetUpdate = VetUpdate(vetName: Option<string>, vetEmail: Option<string>,
                                 vetPhoneNumber: Option<string>, vetLicenseNumber: Option<string>)

  function VetChecks(body: VetUpdate): seq<Check> {
    [Check(body.vetName, "Vet name cannot be empty"),
     Check(body.vetEmail, "Vet email cannot be empty"),
     Check(body.vetPhoneNumber, "Vet phone number cannot be empty"),
     Check(body.vetLicenseNumber, "Vet license number cannot be empty")]
  }

  /** `validate_vet_fields`: name, email, phone number and license number are checked in that
      order and the first present-but-blank one names the error; absent or non-blank fields pass. */
  function ValidateVetFields(body: VetUpdate): (r: Outcome<string>)
    ensures r.Pass? <==> !PresentBlank(body.vetName) && !PresentBlank(body.vetEmail)
                         && !PresentBlank(body.vetPhoneNumber) && !PresentBlank(body.vetLicenseNumber)
    ensures PresentBlank(body.vetName) ==> r == Fail("Vet name cannot be empty")
    ensures !PresentBlank(body.vetName) && PresentBlank(body.vetEmail)
      ==> r == Fail("Vet email cannot be empty")
    ensures !PresentBlank(body.vetName) && !PresentBlank(body.vetEmail) && PresentBlank(body.vetPhoneNumber)
      ==> r == Fail("Vet phone number cannot be empty")
    ensures !PresentBlank(body.vetName) && !PresentBlank(body.vetEmail) && !PresentBlank(body.vetPhoneNumber)
            && PresentBlank(body.vetLicenseNumber)
      ==> r == Fail("Vet license number cannot be empty")
  {
    var checks := VetChecks(body);
    FirstBlankDecidesAll(checks);
    assert checks[0].field == body.vetName && checks[1].field == body.vetEmail;
    assert checks[2].field == body.vetPhoneNumber && checks[3].field == body.vetLicenseNumber;
    assert PresentBlank(body.vetName) ==> FirstBlank(checks, 0);
    assert (!PresentBlank(body.vetName) && PresentBlank(body.vetEmail)) ==> FirstBlank(checks, 1);
    assert (!PresentBlank(body.vetName) && !PresentBlank(body.vetEmail) && PresentBlank(body.vetPhoneNumber))
      ==> FirstBlank(checks, 2);
    assert (!PresentBlank(body.vetName) && !PresentBlank(body.vetEmail) && !PresentBlank(body.vetPhoneNumber)
            && PresentBlank(body.vetLicenseNumber)) ==> FirstBlank(checks, 3);
    ValidateInOrder(checks)
  }

  /** `update_vet`: the reply and the statements issued. */
  function UpdateVetHandler(body: VetUpdate, answer: Query -> Option<DbError>): (r: (Result<Reply, Reply>, seq<Query>))
    ensures ValidateVetFields(body).Fail? ==>
      r == (Failure(Reply(BadRequest, "error", ValidateVetFields(body).error)), [])
    ensures r.0.Success? ==> r.0.value.message == "Vet updated successfully" && r.1 == UpdateQueries
  {
    assert "Vet" + " updated successfully" == "Vet updated successfully";
    UpdateFlow("Vet", ValidateVetFields(body), answer)
  }

  /** `delete_vet`: 200 when a row went, 404 "Vet not found" when none did, 500 on a storage error. */
  function DeleteVetHandler(outcome: Result<nat, DbError>): (r: Result<Reply, Reply>)
    ensures r.Success? <==> outcome.Success? && outcome.value > 0
    ensures r.Success? ==> r.value == Reply(OK, "success", "Vet deleted successfully")
    ensures outcome == Success(0) ==> r == Failure(Reply(NotFound, "error", "Vet not found"))
    ensures outcome.Failure? ==> r == Failure(Reply(InternalServerError, "error", outcome.error.debug))
  {
    assert "Vet" + " not found" == "Vet not found";
    assert "Vet" + " deleted successfully" == "Vet deleted successfully";
    DeleteReply("Vet", outcome)
  }
}
