/** The global error handler (backend/src/middleware/errorHandler.js):
    every error a handler passes to `next(error)` is turned into a JSON
    failure response. A status and a message are taken from the error,
    then three rules, tried in order, rewrite them for Mongoose's
    CastError, MongoDB's duplicate-key error and Mongoose's
    ValidationError; a later rule that matches overrides an earlier one. */
module ErrorHandler {
  import opened Base

  /** The parts of a thrown error the handler reads. `statusCode` and
      `code` are 0 when the error has none (0 is falsy as well), and an
      empty `message` is falsy. `keyFields` are the keys of `keyValue`, in
      order; `fieldErrors` are the `{path, message}` pairs of `errors`. */
  datatype AppError = AppError(
    name: string,
    message: string,
    statusCode: int,
    code: int,
    value: string,
    keyFields: seq<string>,
    fieldErrors: seq<FieldError>,
    stack: string)

  /** A failed Mongoose validation, as thrown by `create` or by an update
      with `runValidators`. */
  function ValidationError(errors: seq<FieldError>): (e: AppError)
    ensures e.name == "ValidationError" && e.fieldErrors == errors
  {
    AppError("ValidationError", "Validation failed", 0, 0, "", [], errors, "")
  }

  /** The paths whose casts the task routes can fail: a task's `_id`, cast
      to an ObjectId when a query names `:id`, and an update's `dueDate`,
      cast to a Date before the update's validators run. */
  datatype CastPath = IdPath | DueDatePath

  /** The error Mongoose throws when a value cannot be cast to the type of
      its path. Its message names the type and the path; the error handler
      reads only its name and value. */
  function CastError(path: CastPath, value: string): (e: AppError)
    ensures e.name == "CastError" && e.value == value && e.code == 0
  {
    var message := match path
      case IdPath => "Cast to ObjectId failed for value \"" + value + "\" (type string) at path \"_id\" for model \"Task\""
      case DueDatePath => "Cast to date failed for value \"" + value + "\" (type string) at path \"dueDate\"";
    AppError("CastError", message, 0, 0, value, [], [], "")
  }

  /** An error that carries only a name and a message. */
  function PlainError(name: string, message: string): (e: AppError)
    ensures e.name == name && e.message == message && e.statusCode == 0 && e.code == 0
  {
    AppError(name, message, 0, 0, "", [], [], "")
  }

  const DuplicateKeyCode := 11000
  const DefaultStatus := 500
  const DefaultMessage := "Internal Server Error"
  const ValidationMessage := "Validation failed"

  /** The body `res.status(status).json({...})` sends; `success` is always
      false. `errors` and `stack` are keys that may be absent. */
  datatype ErrorResponse = ErrorResponse(
    status: int,
    message: string,
    errors: Option<seq<FieldError>>,
    stack: Option<string>)

  function CastMessage(value: string): string
  {
    "Resource not found with id: " + value
  }

  /** `Object.keys(err.keyValue)[0]`, which is `undefined` when there are
      no keys and prints as such. */
  function FirstKey(keys: seq<string>): string
  {
    if keys == [] then "undefined" else keys[0]
  }

  function DuplicateMessage(field: string): string
  {
    "Duplicate value for '" + field + "' — this " + field + " already exists"
  }

  /** The response the handler builds for `err`; `development` is
      `NODE_ENV === 'development'`. A duplicate key overrides the cast rule,
      and a validation failure overrides both. */
  function ResponseFor(err: AppError, development: bool): (res: ErrorResponse)
    ensures err.name == "ValidationError" ==>
      res.status == 400 && res.message == ValidationMessage
    ensures err.name != "ValidationError" && err.code == DuplicateKeyCode ==>
      res.status == 409 && res.message == DuplicateMessage(FirstKey(err.keyFields))
    ensures err.name == "CastError" && err.code != DuplicateKeyCode ==>
      res.status == 400 && res.message == CastMessage(err.value)
    ensures err.name !in {"ValidationError", "CastError"} && err.code != DuplicateKeyCode ==>
      && res.status == (if err.statusCode != 0 then err.statusCode else DefaultStatus)
      && res.message == (if err.message != "" then err.message else DefaultMessage)
    ensures res.errors == (if err.name == "ValidationError" then Some(err.fieldErrors) else None)
    ensures res.stack == (if development then Some(err.stack) else None)
  {
    var stack := if development then Some(err.stack) else None;
    if err.name == "ValidationError" then ErrorResponse(400, ValidationMessage, Some(err.fieldErrors), stack)
    else if err.code == DuplicateKeyCode then ErrorResponse(409, DuplicateMessage(FirstKey(err.keyFields)), None, stack)
    else if err.name == "CastError" then ErrorResponse(400, CastMessage(err.value), None, stack)
    else ErrorResponse(if err.statusCode != 0 then err.statusCode else DefaultStatus,
                       if err.message != "" then err.message else DefaultMessage, None, stack)
  }

  /** The handler itself: a status and a message taken from the error, then
      the three rules in source order, each overriding what came before. */
  method HandleError(err: AppError, development: bool) returns (res: ErrorResponse)
    ensures res == ResponseFor(err, development)
  {
    var statusCode := if err.statusCode != 0 then err.statusCode else DefaultStatus;
    var message := if err.message != "" then err.message else DefaultMessage;
    var errors: Option<seq<FieldError>> := None;

    if err.name == "CastError" {
      statusCode := 400;
      message := CastMessage(err.value);
    }

    if err.code == DuplicateKeyCode {
      statusCode := 409;
      var field := FirstKey(err.keyFields);
      message := DuplicateMessage(field);
    }

    if err.name == "ValidationError" {
      statusCode := 400;
      var entries := seq(|err.fieldErrors|, k requires 0 <= k < |err.fieldErrors| =>
                         FieldError(err.fieldErrors[k].field, err.fieldErrors[k].message));
      assert entries == err.fieldErrors;
      errors := Some(entries);
      message := ValidationMessage;
    }

    res := ErrorResponse(statusCode, message, errors,
                         if development then Some(err.stack) else None);
  }
}
