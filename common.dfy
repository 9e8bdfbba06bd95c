/// Vocabulary shared by every module: optional values, validation results,
/// HTTP methods and the verdict a view reaches on a request.
module Common {

  datatype Option<T> = None | Some(value: T)

  /// Outcome of a serializer check: the validated value, or the message of
  /// the `ValidationError` it raises.
  datatype Result<T> = Ok(value: T) | Fail(message: string)

  /// Outcome of a save: the new value, a validation error, or an
  /// IntegrityError that nobody catches.
  datatype Outcome<T> = Done(value: T) | Rejected(message: string) | Crashed

  /// A JSON value of a request body, as Python's `json` module parses it. A
  /// number without a fraction or an exponent is an `int` (`JNumber`); any
  /// other number is a `float`, held as the text `str()` gives it (`JFloat`,
  /// e.g. "5.0", "1.5", "1e+20"). `JOther` is an array or an object, which no
  /// field of the project accepts.
  datatype Json = JNull | JBool(b: bool) | JNumber(n: int) | JFloat(text: string) | JString(s: string) | JOther

  datatype HttpMethod = Get | Head | Options | Post | Put | Patch | Delete

  /// Django REST framework's SAFE_METHODS.
  predicate IsSafe(m: HttpMethod)
  {
    m == Get || m == Head || m == Options
  }

  /// What a view answers, before any response body is rendered.
  ///   Allow            the handler runs to completion (the write, if any, happens)
  ///   Metadata         OPTIONS answered by the framework's metadata handler
  ///   Unauthenticated  no authenticated user (401)
  ///   Denied           a permission class refused (403)
  ///   NotFound         Http404 from get_object or get_queryset
  ///   NotAllowed       no handler for the method (405)
  ///   Invalid          a ValidationError with its message (400)
  ///   ServerError      an IntegrityError nobody catches (500)
  datatype Decision =
    | Allow
    | Metadata
    | Unauthenticated
    | Denied
    | NotFound
    | NotAllowed
    | Invalid(message: string)
    | ServerError
}
