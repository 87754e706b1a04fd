/**
 * The error handling of the auth-service and of the analytics-service
 * (the same code in both): `AppError` with its default status, the 404
 * for unknown routes, and the final handler that turns whatever was
 * thrown into a JSON error response without leaking unexpected messages.
 */
module ErrorHandler {
  import opened Wrappers
  import opened Http

  const VALIDATION_FAILED: string := "Validation failed"
  const INTERNAL_ERROR: string := "Internal server error"
  const DEFAULT_STATUS: int := 500

  /** An error response: status, message, and for validation errors the messages per field. */
  datatype ErrorResponse = ErrorResponse(status: int, message: string, errors: Option<map<string, seq<string>>>)

  /** `new AppError(message, status?)`: the status is 500 unless one is given, and the name is "AppError". */
  function NewAppError(message: string, status: Option<int>): (e: AppError)
    ensures e.name == "AppError" && e.message == message
    ensures e.status == if status.Some? then status.value else 500
  {
    Fail(message, status.GetOr(DEFAULT_STATUS))
  }

  /** `notFound`: 404 naming the method and the original URL. */
  function NotFound(verb: string, url: string): (r: ErrorResponse)
    ensures r.status == 404 && r.errors.None?
    ensures r.message == "Route " + verb + " " + url + " not found"
  {
    ErrorResponse(404, "Route " + verb + " " + url + " not found", None)
  }

  /**
   * `err.flatten().fieldErrors`: each issue with a non-empty path adds
   * its message under the path's first element, in the order the issues
   * come; issues without a path are not field errors.
   */
  function FieldErrors(issues: seq<Issue>): map<string, seq<string>>
    decreases |issues|
  {
    if issues == [] then map[]
    else
      var m := FieldErrors(issues[..|issues| - 1]);
      var last := issues[|issues| - 1];
      if |last.path| == 0 then m
      else m[last.path[0] := (if last.path[0] in m then m[last.path[0]] else []) + [last.message]]
  }

  /** The messages of the issues under field `field`, in order: the reference `FieldErrors` is checked against. */
  function MessagesFor(issues: seq<Issue>, field: string): seq<string>
    decreases |issues|
  {
    if issues == [] then []
    else
      var last := issues[|issues| - 1];
      MessagesFor(issues[..|issues| - 1], field) + if |last.path| > 0 && last.path[0] == field then [last.message] else []
  }

  /** A field appears exactly when some issue names it, and then with all of its messages, in order. */
  lemma {:induction false} FieldErrorsGroupByField(issues: seq<Issue>, field: string)
    ensures field in FieldErrors(issues) <==> MessagesFor(issues, field) != []
    ensures field in FieldErrors(issues) ==> FieldErrors(issues)[field] == MessagesFor(issues, field)
    decreases |issues|
  {
    if issues != [] {
      FieldErrorsGroupByField(issues[..|issues| - 1], field);
    }
  }

  /** `errorHandler`: what the client receives for a thrown error. */
  function Handle(err: Thrown): ErrorResponse {
    match err
    case Zod(issues) => ErrorResponse(400, VALIDATION_FAILED, Some(FieldErrors(issues)))
    case App(e) => ErrorResponse(e.status, e.message, None)
    case Other(_) => ErrorResponse(500, INTERNAL_ERROR, None)
  }

  /**
   * Validation errors are a 400 "Validation failed" with the field errors;
   * an `AppError` keeps its own status and message; anything else is a
   * 500 "Internal server error" whose body does not depend on the error.
   */
  lemma HandleClassifies(err: Thrown, other: string)
    ensures err.Zod? ==>
      Handle(err).status == 400 && Handle(err).message == "Validation failed" && Handle(err).errors == Some(FieldErrors(err.issues))
    ensures err.App? ==> Handle(err).status == err.error.status && Handle(err).message == err.error.message && Handle(err).errors.None?
    ensures err.Other? ==> Handle(err) == ErrorResponse(500, "Internal server error", None) && Handle(err) == Handle(Other(other))
    ensures Handle(err).errors.Some? <==> err.Zod?
  {
  }

  /** An `AppError` made without a status is answered with a 500 that does show its message. */
  lemma DefaultStatusShown(message: string)
    ensures Handle(App(NewAppError(message, None))) == ErrorResponse(500, message, None)
  {
  }
}
