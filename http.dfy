/**
 * The pieces of the HTTP surface the services share: the operational
 * error every controller throws (`AppError`), and the way the rest of a
 * middleware chain is continued (`next()` or `next(error)`).
 */
module Http {

  /** `AppError`: a message and an HTTP status; its `name` is always "AppError". */
  datatype AppError = AppError(name: string, message: string, status: int)

  const APP_ERROR_NAME: string := "AppError"

  /** `new AppError(message, status)`. */
  function Fail(message: string, status: int): AppError
  {
    AppError(APP_ERROR_NAME, message, status)
  }

  /** One zod validation issue: the path of the offending field and its message. */
  datatype Issue = Issue(path: seq<string>, message: string)

  /**
   * What a handler can throw: an operational `AppError`, a `ZodError`
   * carrying its issues, or any other error (a database error, a
   * `TypeError`), of which only the message is kept.
   */
  datatype Thrown = App(error: AppError) | Zod(issues: seq<Issue>) | Other(message: string)

  /** How a middleware hands control on: `next()` or `next(error)`. */
  datatype Next = Proceed | NextError(error: Thrown)
}
