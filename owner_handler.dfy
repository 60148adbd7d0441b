/** `handlers/owner_handler.rs`: the body check of `update_owner` and the replies of the owner
    handlers. */
module OwnerHandler {
  import opened Wrappers
  import opened Http
  import opened Validator
  import opened Handlers

  /** The `UpdateOwner` request body: every column optional. */
  datatype OwnerUpdate = OwnerUpdate(ownerName: Option<string>, ownerEmail: Option<string>,
                                     ownerPhoneNumber: Option<string>, ownerAddress: Option<string>)

  function OwnerChecks(body: OwnerUpdate): seq<Check> {
    [Check(body.ownerName, "Owner name cannot be empty"),
     Check(body.ownerEmail, "Owner email cannot be empty"),
     Check(body.ownerPhoneNumber, "Owner phone number cannot be empty"),
     Check(body.ownerAddress, "Owner address cannot be empty")]
  }

  /** `validate_owner_fields`: name, email, phone number and address are checked in that order and
      the first present-but-blank one names the error; absent fields always pass. */
  function ValidateOwnerFields(body: OwnerUpdate): (r: Outcome<string>)
    ensures r.Pass? <==> !PresentBlank(body.ownerName) && !PresentBlank(body.ownerEmail)
                         && !PresentBlank(body.ownerPhoneNumber) && !PresentBlank(body.ownerAddress)
    ensures PresentBlank(body.ownerName) ==> r == Fail("Owner name cannot be empty")
    ensures !PresentBlank(body.ownerName) && PresentBlank(body.ownerEmail)
      ==> r == Fail("Owner email cannot be empty")
    ensures !PresentBlank(body.ownerName) && !PresentBlank(body.ownerEmail) && PresentBlank(body.ownerPhoneNumber)
      ==> r == Fail("Owner phone number cannot be empty")
    ensures !PresentBlank(body.ownerName) && !PresentBlank(body.ownerEmail) && !PresentBlank(body.ownerPhoneNumber)
            && PresentBlank(body.ownerAddress)
      ==> r == Fail("Owner address cannot be empty")
  {
    var checks := OwnerChecks(body);
    FirstBlankDecidesAll(checks);
    assert checks[0].field == body.ownerName && checks[1].field == body.ownerEmail;
    assert checks[2].field == body.ownerPhoneNumber && checks[3].field == body.ownerAddress;
    assert PresentBlank(body.ownerName) ==> FirstBlank(checks, 0);
    assert !PresentBlank(body.ownerName) && PresentBlank(body.ownerEmail) ==> FirstBlank(checks, 1);
    assert !PresentBlank(body.ownerName) && !PresentBlank(body.ownerEmail) && PresentBlank(body.ownerPhoneNumber)
      ==> FirstBlank(checks, 2);
    assert (!PresentBlank(body.ownerName) && !PresentBlank(body.ownerEmail) && !PresentBlank(body.ownerPhoneNumber)
            && PresentBlank(body.ownerAddress)) ==> FirstBlank(checks, 3);
    ValidateInOrder(checks)
  }

  /** An empty body is a valid update. */
  lemma EmptyBodyValid()
    ensures ValidateOwnerFields(OwnerUpdate(None, None, None, None)) == Pass
  {
  }

  /** `update_owner`: the reply and the statements issued. */
  function UpdateOwnerHandler(body: OwnerUpdate, answer: Query -> Option<DbError>): (r: (Result<Reply, Reply>, seq<Query>))
    ensures ValidateOwnerFields(body).Fail? ==>
      r == (Failure(Reply(BadRequest, "error", ValidateOwnerFields(body).error)), [])
    ensures r.0.Success? ==> r.0.value.message == "Owner updated successfully" && r.1 == UpdateQueries
  {
    assert "Owner" + " updated successfully" == "Owner updated successfully";
    UpdateFlow("Owner", ValidateOwnerFields(body), answer)
  }

  /** `delete_owner`: 200 when a row went, 404 "Owner not found" when none did, 500 on a storage error. */
  function DeleteOwnerHandler(outcome: Result<nat, DbError>): (r: Result<Reply, Reply>)
    ensures r.Success? <==> outcome.Success? && outcome.value > 0
    ensures r.Success? ==> r.value == Reply(OK, "success", "Owner deleted successfully")
    ensures outcome == Success(0) ==> r == Failure(Reply(NotFound, "error", "Owner not found"))
    ensures outcome.Failure? ==> r == Failure(Reply(InternalServerError, "error", outcome.error.debug))
  {
    assert "Owner" + " not found" == "Owner not found";
    assert "Owner" + " deleted successfully" == "Owner deleted successfully";
    DeleteReply("Owner", outcome)
  }
}
