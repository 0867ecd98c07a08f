/** psycopg2's exceptions as values, the two SQLSTATE codes the slot wrappers
    inspect, and the "swallow one specific code" rule both wrappers apply. */
module PgErrors {

  datatype Option<+T> = None | Some(value: T)

  /** SQLSTATE 42710 `duplicate_object` (PostgreSQL documentation, Appendix A
      "Error Codes", class 42): reported when a replication slot of that name
      already exists. */
  const DuplicateObject: string := "42710"

  /** SQLSTATE 42704 `undefined_object` (same appendix, class 42): reported when
      no replication slot of that name exists. */
  const UndefinedObject: string := "42704"

  /** The exceptions a psycopg2 call can raise, as far as this core tells them
      apart. Only `ProgrammingError` is ever caught; its `pgcode` is the
      server's SQLSTATE, or None when psycopg2 raised it itself.
      `InterfaceError` is what psycopg2 raises on a closed cursor or
      connection; every other class (OperationalError, InternalError, ...) is
      `OtherError`, which may carry a SQLSTATE of its own but is never caught. */
  datatype DbError =
    | ProgrammingError(pgcode: Option<string>)
    | InterfaceError
    | OtherError(kind: string, pgcode: Option<string>)

  /** A call that returns a value normally or raises a `DbError`. */
  datatype Result<+T> = Ok(value: T) | Err(error: DbError)

  /** A call that returns None normally or raises a `DbError`. */
  datatype Outcome = Returned | Raised(error: DbError)

  /** The except-clause of `create_slot` and `delete_slot`: a ProgrammingError
      whose pgcode is `code` becomes a normal return; any other ProgrammingError
      is re-raised unchanged, and other exceptions are not caught at all. */
  function Tolerate(r: Outcome, code: string): (t: Outcome)
    ensures t.Returned? <==> r.Returned? || r == Raised(ProgrammingError(Some(code)))
    ensures t.Raised? ==> t == r
    ensures t != Raised(ProgrammingError(Some(code)))
  {
    match r
    case Raised(ProgrammingError(pgcode)) =>
      if pgcode != Some(code) then r else Returned
    case _ => r
  }
}
