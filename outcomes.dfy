/** Failure-carrying results for the document hooks: every `frappe.throw` of the
    source becomes a `Fail`/`Err` value carrying which validation refused. */
module Outcomes {

  /** The result of a guard that either lets the save go on or refuses it. */
  datatype Outcome<+E> = Pass | Fail(error: E)

  /** The result of an operation that yields a value unless it is refused. */
  datatype Result<+T, +E> = Ok(value: T) | Err(error: E)
}
