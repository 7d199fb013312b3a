/** Option and Result, and the error kinds the catalog core can report. */
module Wrappers {

  datatype Option<+T> = None | Some(value: T)

  datatype Result<+R> = Ok(value: R) | Err(error: Error)

  /** Outcome of a statement that returns no rows. */
  datatype Outcome = Pass | Fail(error: Error)

  datatype Error =
    | NotFound            // the query found no row (pgx.ErrNoRows)
    | MalformedDocument   // stored lyrics bytes do not unmarshal
    | UniqueViolation     // an INSERT reused a primary key
}
