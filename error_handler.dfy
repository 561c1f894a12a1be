/** `handleDBError`: the mapping from a caught database error to an error reply. */
module ErrorHandler {
  import opened Wrappers
  import opened Responses

  /** A caught error: a known Prisma request error with its code, or anything else. */
  datatype DbError = KnownRequestError(code: string) | OtherError

  /**
   * A unique-constraint violation (P2002) is a conflict, a missing record
   * (P2025) is not-found; every other known code and every non-Prisma error
   * gives no reply at all (the function falls off its end).
   */
  function HandleDBError(e: DbError): (r: Option<Ack>)
    ensures r == Some(Failure(Conflict, RecordAlreadyExist)) <==> e == KnownRequestError("P2002")
    ensures r == Some(Failure(NotFound, RecordDoesNotExist)) <==> e == KnownRequestError("P2025")
    ensures r.None? <==> !(e.KnownRequestError? && e.code in {"P2002", "P2025"})
  {
    match e
    case KnownRequestError(code) =>
      if code == "P2002" then Some(Failure(Conflict, RecordAlreadyExist))
      else if code == "P2025" then Some(Failure(NotFound, RecordDoesNotExist))
      else None
    case OtherError => None
  }

  /** The reply, when there is one, is always an error. */
  lemma HandledErrorsAreFailures(e: DbError)
    ensures HandleDBError(e).Some? ==> HandleDBError(e).value.Failure?
    ensures HandleDBError(OtherError).None?
  {
  }
}
