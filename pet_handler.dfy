/** `handlers/pet_handler.rs`: the body check of `update_pet` and the replies of the pet handlers. */
module PetHandler {
  import opened Wrappers
  import opened Http
  import opened Validator
  import opened Handlers

  /** The `UpdatePet` request body. The weight is an `f32`, modelled as a real number. */
  datatype PetUpdate = PetUpdate(petName: Option<string>, petBirthDate: Option<string>, petType: Option<string>,
                                 petBreed: Option<string>, petWeight: Option<real>, petColor: Option<string>,
                                 ownerId: Option<string>)

  function PetChecks(body: PetUpdate): seq<Check> {
    [Check(body.petName, "Pet name cannot be empty"),
     Check(body.petType, "Pet type cannot be empty"),
     Check(body.petBreed, "Pet breed cannot be empty"),
     Check(body.petColor, "Pet color cannot be empty"),
     Check(body.ownerId, "Owner ID cannot be empty")]
  }

  /** A present weight below zero. */
  predicate NegativeWeight(weight: Option<real>) {
    weight.Some? && weight.value < 0.0
  }

  /** `validate_pet_fields`: name, type, breed, color and owner id are checked in that order, the
      first present-but-blank one naming the error; only when all of them pass is a negative weight
      rejected. The birth date is not checked. */
  function ValidatePetFields(body: PetUpdate): (r: Outcome<string>)
    ensures r.Pass? <==> !PresentBlank(body.petName) && !PresentBlank(body.petType) && !PresentBlank(body.petBreed)
                         && !PresentBlank(body.petColor) && !PresentBlank(body.ownerId)
                         && !NegativeWeight(body.petWeight)
    ensures PresentBlank(body.petName) ==> r == Fail("Pet name cannot be empty")
    ensures !PresentBlank(body.petName) && PresentBlank(body.petType) ==> r == Fail("Pet type cannot be empty")
    ensures !PresentBlank(body.petName) && !PresentBlank(body.petType) && PresentBlank(body.petBreed)
      ==> r == Fail("Pet breed cannot be empty")
    ensures !PresentBlank(body.petName) && !PresentBlank(body.petType) && !PresentBlank(body.petBreed)
            && PresentBlank(body.petColor)
      ==> r == Fail("Pet color cannot be empty")
    ensures !PresentBlank(body.petName) && !PresentBlank(body.petType) && !PresentBlank(body.petBreed)
            && !PresentBlank(body.petColor) && PresentBlank(body.ownerId)
      ==> r == Fail("Owner ID cannot be empty")
    ensures ValidateInOrder(PetChecks(body)).Pass? ==>
      (r == Fail("Pet weight cannot be negative") <==> NegativeWeight(body.petWeight))
  {
    var checks := PetChecks(body);
    FirstBlankDecidesAll(checks);
    assert checks[0].field == body.petName && checks[1].field == body.petType && checks[2].field == body.petBreed;
    assert checks[3].field == body.petColor && checks[4].field == body.ownerId;
    assert PresentBlank(body.petName) ==> FirstBlank(checks, 0);
    assert (!PresentBlank(body.petName) && PresentBlank(body.petType)) ==> FirstBlank(checks, 1);
    assert (!PresentBlank(body.petName) && !PresentBlank(body.petType) && PresentBlank(body.petBreed))
      ==> FirstBlank(checks, 2);
    assert (!PresentBlank(body.petName) && !PresentBlank(body.petType) && !PresentBlank(body.petBreed)
            && PresentBlank(body.petColor)) ==> FirstBlank(checks, 3);
    assert (!PresentBlank(body.petName) && !PresentBlank(body.petType) && !PresentBlank(body.petBreed)
            && !PresentBlank(body.petColor) && PresentBlank(body.ownerId)) ==> FirstBlank(checks, 4);
    match ValidateInOrder(checks)
    case Fail(message) => Fail(message)
    case Pass =>
      if body.petWeight.Some? && body.petWeight.value < 0.0 then Fail("Pet weight cannot be negative") else Pass
  }

  /** The birth date never affects validation. */
  lemma BirthDateNotValidated(body: PetUpdate, birthDate: Option<string>)
    ensures ValidatePetFields(body.(petBirthDate := birthDate)) == ValidatePetFields(body)
  {
    assert PetChecks(body.(petBirthDate := birthDate)) == PetChecks(body);
  }

  /** A zero weight is accepted. */
  lemma ZeroWeightAccepted(body: PetUpdate)
    requires body.petWeight == Some(0.0)
    requires ValidateInOrder(PetChecks(body)).Pass?
    ensures ValidatePetFields(body) == Pass
  {
  }

  /** `update_pet`: the reply and the statements issued. */
  function UpdatePetHandler(body: PetUpdate, answer: Query -> Option<DbError>): (r: (Result<Reply, Reply>, seq<Query>))
    ensures ValidatePetFields(body).Fail? ==>
      r == (Failure(Reply(BadRequest, "error", ValidatePetFields(body).error)), [])
    ensures r.0.Success? ==> r.0.value.message == "Pet updated successfully" && r.1 == UpdateQueries
  {
    assert "Pet" + " updated successfully" == "Pet updated successfully";
    UpdateFlow("Pet", ValidatePetFields(body), answer)
  }

  /** `delete_pet`: 200 when a row went, 404 "Pet not found" when none did, 500 on a storage error. */
  function DeletePetHandler(outcome: Result<nat, DbError>): (r: Result<Reply, Reply>)
    ensures r.Success? <==> outcome.Success? && outcome.value > 0
    ensures r.Success? ==> r.value == Reply(OK, "success", "Pet deleted successfully")
    ensures outcome == Success(0) ==> r == Failure(Reply(NotFound, "error", "Pet not found"))
    ensures outcome.Failure? ==> r == Failure(Reply(InternalServerError, "error", outcome.error.debug))
  {
    assert "Pet" + " not found" == "Pet not found";
    assert "Pet" + " deleted successfully" == "Pet deleted successfully";
    DeleteReply("Pet", outcome)
  }
}
