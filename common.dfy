/** Types shared by every layer of the user API: identifiers, optional values and the
    errors that the layers throw at one another. */
module Common {

  /** A user's primary key (a uuid string generated by the database). */
  type UserId = string

  /** `T | null` (or `undefined`) in the TypeScript signatures. */
  datatype Option<+T> = None | Some(value: T) {
    function GetOr(default: T): T {
      match this
      case Some(v) => v
      case None => default
    }
  }

  /** Everything that is thrown in the core is an `Error`: a failed schema parse
      (a `ZodError`, whose message lists the failed checks) or an `Error` built
      from a message by the DAO, the service or the database client. */
  datatype Error =
    | Invalid(issues: seq<string>)
    | Thrown(message: string)

  /** A call that either returns a value or throws an `Error`. */
  datatype Result<+T> = Ok(value: T) | Err(error: Error)
}
