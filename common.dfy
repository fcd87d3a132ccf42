/** Values shared by every route handler and store of the portal. */
module Common {

  /** A value that may be absent: `undefined` or `null` in the source. */
  datatype Option<+T> = None | Some(value: T) {
    function GetOr(default: T): T {
      match this
      case Some(v) => v
      case None => default
    }
  }

  /** A string field that JavaScript treats as true: present and not empty. */
  predicate Truthy(s: Option<string>)
  {
    s.Some? && s.value != ""
  }

  /**
   * What a route handler sends back: a success with its HTTP status and
   * body, or a failure with its HTTP status and the `error` text.
   */
  datatype Reply<+T> = Ok(code: nat, value: T) | Err(code: nat, message: string)

  /** The text of every zod rejection (`res.status(400).json({ error: 'Validation failed', ... })`). */
  const ValidationFailed: string := "Validation failed"

  /**
   * A rejected promise passed to `next(error)` (a Prisma error, a failed
   * foreign call): the application's error handler answers with a 500.
   */
  const Forwarded: string := "forwarded to the error handler"
}
