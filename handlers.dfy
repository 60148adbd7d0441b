/** What the owner, pet and vet handlers share: the `limit`/`offset` arithmetic of the listing
    handlers, the reply of the delete handlers, and the query sequence of the update handlers. */
module Handlers {
  import opened Wrappers
  import opened Text
  import opened Http
  import opened Sql
  import opened DuplicateError

  /** Rust's `usize` on a 64-bit target. */
  const UsizeBound := 0x1_0000_0000_0000_0000
  type Usize = x: int | 0 <= x < UsizeBound

  const DefaultLimit: Usize := 10
  const DefaultPage: Usize := 1

  /** The two ways the offset arithmetic panics in a debug build. */
  datatype Panic = SubtractOverflow | MultiplyOverflow

  /** The `LIMIT ? OFFSET ?` values a listing handler binds. */
  datatype Window = Window(limit: I32, offset: I32)

  /** `limit = opts.limit.unwrap_or(10)`, `offset = (opts.page.unwrap_or(1) - 1) * limit`, both then
      cast with `as i32`. Page 0 underflows the `usize` subtraction and an offset past `usize::MAX`
      overflows the multiplication; either panics. */
  function Paginate(page: Option<Usize>, limit: Option<Usize>): (r: Result<Window, Panic>)
    ensures var p, l := page.GetOr(DefaultPage), limit.GetOr(DefaultLimit);
      && (r == Failure(SubtractOverflow) <==> p == 0)
      && (r == Failure(MultiplyOverflow) <==> p > 0 && (p - 1) * l >= UsizeBound)
      && (r.Success? ==> (l - r.value.limit) % 0x1_0000_0000 == 0
                         && ((p - 1) * l - r.value.offset) % 0x1_0000_0000 == 0)
  {
    var l := limit.GetOr(DefaultLimit);
    var p := page.GetOr(DefaultPage);
    if p == 0 then Failure(SubtractOverflow)
    else if (p - 1) * l >= UsizeBound then Failure(MultiplyOverflow)
    else
      AsI32Wraps(l);
      AsI32Wraps((p - 1) * l);
      Success(Window(AsI32(l), AsI32((p - 1) * l)))
  }

  /** With neither option given, the first ten rows are listed. */
  lemma DefaultWindow()
    ensures Paginate(None, None) == Success(Window(10, 0))
  {
  }

  /** Within `i32` range, page `p + 1` starts where page `p` ends: the pages tile the rows. */
  lemma PagesTile(p: Usize, l: Usize)
    requires 1 <= p < UsizeBound - 1 && p * l + l < 0x8000_0000
    ensures Paginate(Some(p), Some(l)).Success? && Paginate(Some(p + 1), Some(l)).Success?
    ensures Paginate(Some(p + 1), Some(l)).value.offset
         == Paginate(Some(p), Some(l)).value.offset + Paginate(Some(p), Some(l)).value.limit
  {
    assert l <= p * l && p * l == (p + 1 - 1) * l == (p - 1) * l + l;
    PageWindow(p, l);
    PageWindow(p + 1, l);
  }

  /** Within `i32` range, page `p` of `l` rows is the window at offset `(p - 1) * l`. */
  lemma PageWindow(p: Usize, l: Usize)
    requires 1 <= p && 0 <= (p - 1) * l && l < 0x8000_0000 && (p - 1) * l < 0x8000_0000
    ensures Paginate(Some(p), Some(l)) == Success(Window(l, (p - 1) * l))
  {
  }

  /** The reply of a delete handler, from the number of rows the `DELETE` affected. */
  function DeleteReply(entity: string, outcome: Result<nat, DbError>): (r: Result<Reply, Reply>)
    ensures r.Success? <==> outcome.Success? && outcome.value > 0
    ensures r.Success? ==> r.value == Reply(OK, "success", entity + " deleted successfully")
    ensures outcome.Success? && outcome.value == 0 ==> r == Failure(Reply(NotFound, "error", entity + " not found"))
    ensures outcome.Failure? ==> r == Failure(Reply(InternalServerError, "error", outcome.error.debug))
  {
    match outcome
    case Success(rowsAffected) =>
      if rowsAffected > 0 then Success(Reply(OK, "success", entity + " deleted successfully"))
      else Failure(Reply(NotFound, "error", entity + " not found"))
    case Failure(e) => Failure(Reply(InternalServerError, "error", e.debug))
  }

  /** `DELETE FROM <table> WHERE <key> = ?` on a table given as its set of keys. */
  function RowsDeleted(keys: set<string>, key: string): (n: nat)
    ensures n <= 1
    ensures n == 1 <==> key in keys
  {
    if key in keys then 1 else 0
  }

  /** Deleting the same row twice: the first call succeeds and the second finds nothing. */
  lemma DeleteTwice(entity: string, keys: set<string>, key: string)
    requires key in keys
    ensures DeleteReply(entity, Success(RowsDeleted(keys, key))).Success?
    ensures DeleteReply(entity, Success(RowsDeleted(keys - {key}, key)))
         == Failure(Reply(NotFound, "error", entity + " not found"))
  {
  }

  /** The statements an update handler issues: the existence check, the update, the re-read. */
  datatype Query = SelectRow | UpdateRow | ReselectRow

  const UpdateQueries := [SelectRow, UpdateRow, ReselectRow]

  /** An update handler: validate the body, look the row up, update it, read it back. `answer`
      tells which statement the database rejects, and with what error. The reply comes with the
      statements issued, in order. */
  function UpdateFlow(entity: string, validation: Outcome<string>, answer: Query -> Option<DbError>)
    : (r: (Result<Reply, Reply>, seq<Query>))
    ensures var (reply, issued) := r;
      && issued <= UpdateQueries
      && (issued == [] <==> validation.Fail?)
      && (validation.Fail? ==> reply == Failure(Reply(BadRequest, "error", validation.error)))
      && (reply.Success? <==> issued == UpdateQueries && forall q :: q in issued ==> answer(q).None?)
      && (reply.Success? ==> reply.value == Reply(OK, "success", entity + " updated successfully"))
      && (issued != [] && reply.Failure? ==> answer(issued[|issued| - 1]).Some?)
      && (issued != [] ==> forall k :: 0 <= k < |issued| - 1 ==> answer(issued[k]).None?)
      && (issued == [SelectRow] ==> reply == Failure(Reply(NotFound, "error", answer(SelectRow).value.debug)))
      && (issued == [SelectRow, UpdateRow] ==> reply == HandleDuplicateEntryError(answer(UpdateRow).value, entity))
      && (issued == UpdateQueries && answer(ReselectRow).Some? ==>
            reply == Failure(Reply(InternalServerError, "error", answer(ReselectRow).value.debug)))
  {
    match validation
    case Fail(message) => (Failure(Reply(BadRequest, "error", message)), [])
    case Pass =>
      match answer(SelectRow)
      case Some(e) => (Failure(Reply(NotFound, "error", e.debug)), [SelectRow])
      case None =>
        match answer(UpdateRow)
        case Some(e) => (HandleDuplicateEntryError(e, entity), [SelectRow, UpdateRow])
        case None =>
          match answer(ReselectRow)
          case Some(e) => (Failure(Reply(InternalServerError, "error", e.debug)), UpdateQueries)
          case None => (Success(Reply(OK, "success", entity + " updated successfully")), UpdateQueries)
  }

  /** A row that is not there is reported as 404 and is never updated. */
  lemma MissingRowNotUpdated(entity: string, answer: Query -> Option<DbError>)
    requires answer(SelectRow).Some?
    ensures UpdateFlow(entity, Pass, answer).0.error.code == NotFound
    ensures UpdateRow !in UpdateFlow(entity, Pass, answer).1
  {
  }

  /** A rejected update is a 409 exactly when the database reports a duplicate entry. */
  lemma UpdateConflict(entity: string, answer: Query -> Option<DbError>)
    requires answer(SelectRow).None? && answer(UpdateRow).Some?
    ensures UpdateFlow(entity, Pass, answer).0.error.code == Conflict
        <==> Contains(answer(UpdateRow).value.display, DuplicateMarker)
  {
  }
}
