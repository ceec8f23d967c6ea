/**
 * The application's error table (defines/errors.ts): `createError` looks a
 * name up in the table and lets truthy overrides replace the name and the
 * message; `isCustomError` is a Joi shape check over an arbitrary value.
 */
module Errors {
  import opened Wrappers

  datatype CustomError = CustomError(code: string, name: string, message: string)

  /** The optional `overrides` argument; `None` is an absent field. */
  datatype Overrides = Overrides(name: Option<string>, message: Option<string>)

  const NoOverrides := Overrides(None, None)

  /** The `ERRORS` table, keyed by error name. */
  const ERRORS: map<string, CustomError> := map[
    "INTERNAL_SERVER_ERROR" := CustomError("CE000", "Internal server error", "Unhandled error occured."),
    "METHOD_NOT_EXISTS" := CustomError("CE001", "Bad request method", "Check request host and/or method."),
    "VALIDATION_FAILED" := CustomError("CE002", "Validation failed", "Check your request's validity."),
    "NO_PERMISSION" := CustomError("CE003", "No permission", "No permission to execute the operation."),
    "INVALID_TOKEN" := CustomError("AE000", "Invalid token", "The token has been modified or something."),
    "TOKEN_EXPIRED" := CustomError("AE001", "Token expired", "The token has been expired."),
    "TOKEN_EMPTY" := CustomError("AE002", "Token empty", "You need to signin first."),
    "NO_SUCH_USER" := CustomError("AE003", "No such user", "No such user with the given email address."),
    "WRONG_PASSWORD" := CustomError("AE004", "Wrong password", "Try another one."),
    "MISSING_ADMIN_KEY" := CustomError("AE101", "Missing admin key", "You need to embed Admin Key to request `Authorization` header."),
    "INVALID_ADMIN_KEY" := CustomError("AE102", "Wrong admin key", "Check your admin key."),
    "USER_ALREADY_EXISTS" := CustomError("KE001", "User already exists", "Try signin instead."),
    "AWS_ERROR" := CustomError("EE001", "AWS error", "An error occured inside of AWS related processes."),
    "AWS_NOT_FOUND" := CustomError("EE002", "S3 Object not found", "Object with the provided `key` was not found."),
    "MONGO_ERROR" := CustomError("EE101", "Mongo error", "An error occured inside of mongodb related processes.")
  ]

  /** The variants an error code may start with (`ERROR_VARIANTS`). */
  const VARIANTS: set<string> := {"CE", "AE", "KE", "EE"}

  predicate IsDigit(c: char) { '0' <= c <= '9' }

  /** A code of the `ErrorCode` shape as the table uses it: a variant and three digits. */
  predicate WellFormedCode(code: string) {
    |code| == 5 && code[..2] in VARIANTS && IsDigit(code[2]) && IsDigit(code[3]) && IsDigit(code[4])
  }

  /** JavaScript's `a || b` on an optional string: the empty string and `undefined` are falsy. */
  function OrElse(o: Option<string>, fallback: string): (s: string)
    ensures o.Some? && o.value != "" ==> s == o.value
    ensures (o.None? || o.value == "") ==> s == fallback
  {
    if o.Some? && o.value != "" then o.value else fallback
  }

  /** `createError(errName, overrides)`; its parameter type restricts `errName` to the table's keys. */
  function CreateError(errName: string, overrides: Overrides): (e: CustomError)
    requires errName in ERRORS
    ensures e.code == ERRORS[errName].code
    ensures e.name == (if overrides.name.Some? && overrides.name.value != "" then overrides.name.value else ERRORS[errName].name)
    ensures e.message == (if overrides.message.Some? && overrides.message.value != "" then overrides.message.value else ERRORS[errName].message)
  {
    var err := ERRORS[errName];
    CustomError(err.code, OrElse(overrides.name, err.name), OrElse(overrides.message, err.message))
  }

  /** What reading `code` of a table entry that is `undefined` throws. */
  const UNDEFINED_ENTRY_ERROR := "TypeError: Cannot read properties of undefined (reading 'code')"

  /**
   * `createError` as it runs for any name: a name that is not a table key
   * (the parameter type does not stop a caller that slips past the type
   * check) leaves `err` undefined, and reading its `code` throws.
   */
  function CreateErrorAt(errName: string, overrides: Overrides): (r: Result<CustomError, string>)
    ensures r.Success? <==> errName in ERRORS
    ensures r.Success? ==> r.value == CreateError(errName, overrides)
    ensures r.Failure? ==> r.error == UNDEFINED_ENTRY_ERROR
  {
    if errName in ERRORS then Success(CreateError(errName, overrides)) else Failure(UNDEFINED_ENTRY_ERROR)
  }

  /** A JavaScript value as far as the shape check can tell values apart. */
  datatype Value =
    | Undefined
    | Null
    | Str(s: string)
    | OtherScalar                      // numbers, booleans, functions
    | Obj(fields: map<string, Value>)  // a plain object; an absent key is a missing field

  /** Joi's `string().required()` on one field of an object (empty strings are refused). */
  predicate RequiredString(fields: map<string, Value>, key: string) {
    key in fields && fields[key].Str? && fields[key].s != ""
  }

  /**
   * `isCustomError`: the object schema is not `required()`, so `undefined`
   * passes; an object passes when it has no keys besides code, name and
   * message (a key holding `undefined` counts as absent) and all three are
   * non-empty strings, the code of length 5.
   */
  predicate IsCustomError(v: Value) {
    match v
    case Undefined => true
    case Obj(fields) =>
      && (forall k :: k in fields && fields[k] != Undefined ==> k in {"code", "name", "message"})
      && RequiredString(fields, "code") && |fields["code"].s| == 5
      && RequiredString(fields, "name")
      && RequiredString(fields, "message")
    case _ => false
  }

  /** The value a `CustomError` is once serialised as an object. */
  function AsValue(e: CustomError): (v: Value)
    ensures v.Obj? && v.fields.Keys == {"code", "name", "message"}
  {
    Obj(map["code" := Str(e.code), "name" := Str(e.name), "message" := Str(e.message)])
  }

  /** Every table entry has a well-formed code and non-empty name and message. */
  lemma TableWellFormed(n: string)
    requires n in ERRORS
    ensures WellFormedCode(ERRORS[n].code)
    ensures ERRORS[n].name != "" && ERRORS[n].message != ""
  {
    var c := ERRORS[n].code;
    assert c[..2] == [c[0], c[1]];
  }

  /** The code of a created error is the table's code, whatever the overrides. */
  lemma CodeNotOverridable(n: string, o1: Overrides, o2: Overrides)
    requires n in ERRORS
    ensures CreateError(n, o1).code == CreateError(n, o2).code
    ensures WellFormedCode(CreateError(n, o1).code)
  {
    TableWellFormed(n);
  }

  /** What `createError` returns for any table key passes `isCustomError`. */
  lemma {:induction false} CreatedErrorsAreCustom(n: string, o: Overrides)
    requires n in ERRORS
    ensures IsCustomError(AsValue(CreateError(n, o)))
  {
    TableWellFormed(n);
    var e := CreateError(n, o);
    assert e.name != "" && e.message != "";
    assert |e.code| == 5;
  }

  /** A value whose code is not of length 5, or that lacks a name or message, is refused. */
  lemma ShapeRefusals(fields: map<string, Value>)
    ensures ("code" in fields && fields["code"].Str? && |fields["code"].s| != 5) ==> !IsCustomError(Obj(fields))
    ensures !RequiredString(fields, "name") ==> !IsCustomError(Obj(fields))
    ensures !RequiredString(fields, "message") ==> !IsCustomError(Obj(fields))
  {
  }

  /** `undefined` passes the check, because the object schema is optional. */
  lemma UndefinedPasses()
    ensures IsCustomError(Undefined) && !IsCustomError(Null)
  {
  }
}
