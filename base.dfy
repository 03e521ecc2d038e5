/** Shared vocabulary of the backend: optional values, record identifiers,
    the `{field, message}` pairs that validation failures report, and the
    shape of a JSON request body. */
module Base {

  datatype Option<+T> = None | Some(value: T)

  /** Database identifiers (ObjectIds), modelled as naturals handed out in
      increasing order. */
  type UserId = nat
  type TaskId = nat

  /** One entry of the `errors` array of a "Validation failed" response. */
  datatype FieldError = FieldError(field: string, message: string)

  /** The outcome of checking one document path: the cast value, or the
      first failing validator's report. */
  datatype Checked<T> = Accepted(value: T) | Rejected(error: FieldError)

  /** The outcome of validating a whole document: the document, or the
      reports of every failing path (a Mongoose `ValidationError`). */
  datatype Validated<T> = Valid(value: T) | Invalid(errors: seq<FieldError>)

  /** The report a path contributes to a ValidationError: none or one. */
  function Report<T>(c: Checked<T>): (r: seq<FieldError>)
    ensures |r| <= 1
    ensures r == [] <==> c.Accepted?
  {
    if c.Rejected? then [c.error] else []
  }

  /** The scalar JSON values a serialised document holds. */
  datatype Json = JStr(str: string) | JNum(num: int) | JNull

  /** A parsed JSON request body whose values are strings; a key is present
      exactly when the corresponding `req.body[key]` is defined. */
  type Body = map<string, string>

  /** `req.body[key]`, with `undefined` as `None`. */
  function Lookup(body: Body, key: string): (r: Option<string>)
    ensures r.Some? <==> key in body
    ensures r.Some? ==> r.value == body[key]
  {
    if key in body then Some(body[key]) else None
  }

  /** JavaScript truthiness of a possibly missing string: `undefined` and
      `''` are falsy. */
  predicate Truthy(v: Option<string>)
  {
    v.Some? && v.value != ""
  }
}
