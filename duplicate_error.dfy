/** `utils/handle_duplicate_error.rs`: turning a failed insert or update into a 409 or a 500. */
module DuplicateError {
  import opened Wrappers
  import opened Text
  import opened Http

  const DuplicateMarker := "Duplicate entry"

  /** `handle_duplicate_entry_error`: always an error reply; a conflict when the error text
      mentions a duplicate entry, otherwise an internal error quoting that text. */
  function HandleDuplicateEntryError(err: DbError, entity: string): (r: Result<Reply, Reply>)
    ensures r.Failure?
    ensures r.error.code == Conflict <==> Contains(err.display, DuplicateMarker)
    ensures r.error.code == Conflict ==> r.error.status == "fail" && r.error.message == entity + " already exists"
    ensures r.error.code != Conflict ==>
      r.error.code == InternalServerError && r.error.status == "error"
      && ParseDebugString(r.error.message) == Some(err.display)
  {
    if Contains(err.display, DuplicateMarker) then
      Failure(Reply(Conflict, "fail", entity + " already exists"))
    else
      DebugStringRoundTrip(err.display);
      Failure(Reply(InternalServerError, "error", DebugString(err.display)))
  }

  /** The status code depends on the error text alone, never on the entity name. */
  lemma ClassificationIgnoresEntity(err: DbError, entity1: string, entity2: string)
    ensures HandleDuplicateEntryError(err, entity1).error.code == HandleDuplicateEntryError(err, entity2).error.code
  {
  }

  /** The message MySQL gives for a repeated primary key is classified as a conflict. */
  lemma DuplicateKeyIsConflict(key: string, entity: string)
    ensures HandleDuplicateEntryError(DbError("Duplicate entry '" + key + "' for key 'PRIMARY'", ""), entity).error
         == Reply(Conflict, "fail", entity + " already exists")
  {
    var m := "Duplicate entry '" + key + "' for key 'PRIMARY'";
    assert OccursAt(m, DuplicateMarker, 0);
  }
}
