/**
 * Error values and error responses of the handlers package: the JSON error
 * body, the `HandleError` carried (wrapped) inside a Go `error`, the three
 * constructors defined beside it, `ErrorResponse`, and `TriageJSONError`.
 */
module Errors {
  import opened Wrappers
  import opened GoText
  import opened Validation

  const StatusOK := 200
  const StatusCreated := 201
  const StatusAccepted := 202
  const StatusBadRequest := 400
  const StatusNotFound := 404
  const StatusMethodNotAllowed := 405
  const StatusInternalServerError := 500

  const NotFoundMessage := "the requested resource could not be found"
  const BadRequestMessage := "the requested action cannot be performed with the provided parameters"
  const NotAllowedMessage := "the %s method is not supported for this resource"

  const HttpErrorMessages: map<int, string> := map[
    StatusNotFound := NotFoundMessage,
    StatusBadRequest := BadRequestMessage,
    StatusInternalServerError := "Internal server error",
    StatusMethodNotAllowed := NotAllowedMessage]

  const HttpErrorCodeStrings: map<int, string> := map[
    StatusNotFound := "NOT_FOUND",
    StatusBadRequest := "BAD_REQUEST",
    StatusMethodNotAllowed := "METHOD_NOT_ALLOWED"]

  /** Go's map index: the zero value "" for a missing key. */
  function Index(m: map<int, string>, k: int): string {
    if k in m then m[k] else ""
  }

  datatype ErrorDetail = ErrorDetail(field: string, message: string)

  /** `ErrorResponseBody`; empty `details` are omitted from the JSON. */
  datatype ErrorResponseBody = ErrorResponseBody(code: string, message: string, details: seq<ErrorDetail>)

  datatype HandleError = HandleError(statusCode: int, response: ErrorResponseBody)

  /** A Go `error`: a `HandleError`, a `%w` wrapping of another error, or any other error. */
  datatype GoError = Handle(h: HandleError) | Wrapped(inner: GoError) | Plain(text: string)

  /** `errors.As(err, &handleError)`: the first `HandleError` on the unwrap chain. */
  function AsHandleError(err: GoError): Option<HandleError>
  {
    match err
    case Handle(h) => Some(h)
    case Wrapped(inner) => AsHandleError(inner)
    case Plain(_) => None
  }

  /** The value under the JSON key "error". */
  datatype ErrorJson = ErrorObject(body: ErrorResponseBody) | ErrorString(text: string)

  datatype Response = Response(status: int, error: ErrorJson)

  /** `ErrorResponse`: the status and body of a wrapped `HandleError`, else a generic 500. */
  function ErrorResponse(err: GoError): (r: Response)
    ensures err.Plain? ==> r == Response(StatusInternalServerError, ErrorString("internal server error"))
    ensures err.Wrapped? ==> r == ErrorResponse(err.inner)
    ensures err.Handle? ==> r == Response(err.h.statusCode, ErrorObject(err.h.response))
  {
    match AsHandleError(err)
    case Some(h) => Response(h.statusCode, ErrorObject(h.response))
    case None => Response(StatusInternalServerError, ErrorString("internal server error"))
  }

  /** The details list: one "original_error" entry exactly when there is an original error. */
  function OriginalErrorDetails(origErr: Option<string>): (d: seq<ErrorDetail>)
    ensures |d| == 0 <==> origErr.None?
    ensures origErr.Some? ==> d == [ErrorDetail("original_error", origErr.value)]
  {
    if origErr.Some? then [ErrorDetail("original_error", origErr.value)] else []
  }

  /** Shared shape of the three constructors: a `%w` wrap of a `HandleError`. */
  function Build(status: int, origErr: Option<string>): GoError
  {
    Wrapped(Handle(HandleError(status, ErrorResponseBody(
      Index(HttpErrorCodeStrings, status), Index(HttpErrorMessages, status),
      OriginalErrorDetails(origErr)))))
  }

  function NotFoundError(origErr: Option<string>): (e: GoError)
    ensures e.Wrapped? && AsHandleError(e).Some?
    ensures AsHandleError(e).value.statusCode == 404
    ensures AsHandleError(e).value.response.code == "NOT_FOUND"
    ensures AsHandleError(e).value.response.message == "the requested resource could not be found"
    ensures AsHandleError(e).value.response.details == OriginalErrorDetails(origErr)
  {
    Build(StatusNotFound, origErr)
  }

  /** The message is the raw template: `httpMethod` is not interpolated. */
  function NotAllowedError(origErr: Option<string>, httpMethod: string): (e: GoError)
    ensures e.Wrapped? && AsHandleError(e).Some?
    ensures AsHandleError(e).value.statusCode == 405
    ensures AsHandleError(e).value.response.code == "METHOD_NOT_ALLOWED"
    ensures AsHandleError(e).value.response.message == "the %s method is not supported for this resource"
    ensures AsHandleError(e).value.response.details == OriginalErrorDetails(origErr)
  {
    Build(StatusMethodNotAllowed, origErr)
  }

  function StatusBadRequestError(origErr: Option<string>): (e: GoError)
    ensures e.Wrapped? && AsHandleError(e).Some?
    ensures AsHandleError(e).value.statusCode == 400
    ensures AsHandleError(e).value.response.code == "BAD_REQUEST"
    ensures AsHandleError(e).value.response.message == "the requested action cannot be performed with the provided parameters"
    ensures AsHandleError(e).value.response.details == OriginalErrorDetails(origErr)
  {
    Build(StatusBadRequest, origErr)
  }

  /** The `httpMethod` argument of `NotAllowedError` has no effect on the error. */
  lemma NotAllowedIgnoresMethod(origErr: Option<string>, m1: string, m2: string)
    ensures NotAllowedError(origErr, m1) == NotAllowedError(origErr, m2)
  {
  }

  /** Each constructor's result, given to `ErrorResponse`, is answered with that constructor's status and body. */
  lemma ConstructorResponses(origErr: Option<string>, httpMethod: string)
    ensures ErrorResponse(NotFoundError(origErr)) ==
      Response(404, ErrorObject(ErrorResponseBody("NOT_FOUND", NotFoundMessage, OriginalErrorDetails(origErr))))
    ensures ErrorResponse(NotAllowedError(origErr, httpMethod)) ==
      Response(405, ErrorObject(ErrorResponseBody("METHOD_NOT_ALLOWED", NotAllowedMessage, OriginalErrorDetails(origErr))))
    ensures ErrorResponse(StatusBadRequestError(origErr)) ==
      Response(400, ErrorObject(ErrorResponseBody("BAD_REQUEST", BadRequestMessage, OriginalErrorDetails(origErr))))
  {
  }

  /** Every depth of `%w` wrapping of a `HandleError` is seen through. */
  lemma {:induction false} ErrorResponseSeesThroughWraps(h: HandleError, err: GoError)
    requires AsHandleError(err) == Some(h)
    ensures ErrorResponse(Wrapped(err)) == Response(h.statusCode, ErrorObject(h.response))
  {
  }

  // ---------------------------------------------------------------------
  // The error-producing constructors the handlers and middleware call
  // ---------------------------------------------------------------------

  /**
   * The error a handler or middleware hands to `ErrorResponse`, by the
   * constructor that built it. Only NotFound, NotAllowed and BadRequest are
   * defined in handlers/errors.go; the others are defined in a file that is
   * not part of this model, so their status and body are not modelled.
   */
  datatype Rejection =
    | NotFound(cause: Option<string>)
    | NotAllowed(cause: Option<string>, httpMethod: string)
    | BadRequest(cause: Option<string>)
    | InternalServerError(reason: string)
    | FailedValidation(errors: seq<FieldError>)
    | EditConflictError(reason: string)
    | RateLimitExceeded
    | InvalidAuthenticationToken
    | AuthenticationRequired
    | InactiveAccount
    | NotPermitted
  {
    /** The error value, for the constructors whose code is modelled. */
    function Built(): Option<GoError>
    {
      match this
      case NotFound(c) => Some(NotFoundError(c))
      case NotAllowed(c, m) => Some(NotAllowedError(c, m))
      case BadRequest(c) => Some(StatusBadRequestError(c))
      case _ => None
    }
  }

  // ---------------------------------------------------------------------
  // TriageJSONError
  // ---------------------------------------------------------------------

  /** The errors `json.Decoder.Decode` and `http.MaxBytesReader` produce. */
  datatype DecodeError =
    | SyntaxError(offset: int)
    | UnmarshalTypeError(field: string, offset: int)
    | InvalidUnmarshalError
    | MaxBytesError(limit: int)
    | EOF                               // io.EOF
    | OtherDecodeError(text: string)    // any other error, e.g. io.ErrUnexpectedEOF

  /** One character as `%q` writes it. */
  function EscapeChar(c: char): string
  {
    if c == '"' then "\\\""
    else if c == '\\' then "\\\\"
    else if c == '\n' then "\\n"
    else if c == '\t' then "\\t"
    else if c == '\r' then "\\r"
    else [c]
  }

  function Escape(s: string): string
  {
    if s == [] then [] else EscapeChar(s[0]) + Escape(s[1..])
  }

  /** `%q` of a string: a double-quoted Go literal. */
  function Quote(s: string): string
  {
    "\"" + Escape(s) + "\""
  }

  predicate Escaped(c: char) {
    c == '"' || c == '\\' || c == '\n' || c == '\t' || c == '\r'
  }

  /** The first character of an escape determines the character and the escape's length. */
  lemma EscapeCharPrefix(c: char, d: char, r1: string, r2: string)
    requires EscapeChar(c) + r1 == EscapeChar(d) + r2
    ensures c == d && r1 == r2
  {
    var s := EscapeChar(c) + r1;
    assert s == EscapeChar(d) + r2;
    if Escaped(c) || Escaped(d) {
      assert s[0] == '\\';
      assert Escaped(c) && Escaped(d);
      assert |EscapeChar(c)| == 2 && |EscapeChar(d)| == 2;
      assert s[1] == EscapeChar(c)[1] == EscapeChar(d)[1];
      assert r1 == s[2..] == r2;
    } else {
      assert s[0] == c && s[0] == d;
      assert r1 == s[1..] == r2;
    }
  }

  /** Escaping loses nothing: distinct strings are quoted differently. */
  lemma {:induction false} EscapeInjective(a: string, b: string)
    requires Escape(a) == Escape(b)
    ensures a == b
  {
    if a != [] && b != [] {
      EscapeCharPrefix(a[0], b[0], Escape(a[1..]), Escape(b[1..]));
      EscapeInjective(a[1..], b[1..]);
      assert a == [a[0]] + a[1..];
      assert b == [b[0]] + b[1..];
    }
  }

  /**
   * `TriageJSONError`: the text of the error it returns. An
   * `InvalidUnmarshalError` makes it panic, so it is excluded here.
   */
  function TriageJSONError(err: DecodeError): (text: string)
    requires !err.InvalidUnmarshalError?
    ensures err.EOF? ==> text == "body must not be empty"
    ensures err.OtherDecodeError? ==> text == err.text
  {
    match err
    case SyntaxError(offset) => "body contains badly-formed JSON (at character " + Itoa(offset) + ")"
    case UnmarshalTypeError(field, offset) =>
      if field != "" then "body contains incorrect JSON type for field " + Quote(field)
      else "body contains incorrect JSON type (at character " + Itoa(offset) + ")"
    case MaxBytesError(limit) => "body must not be larger than " + Itoa(limit) + " bytes"
    case EOF => "body must not be empty"
    case OtherDecodeError(t) => t
  }

  lemma StripAffixes(p: string, x: string, y: string, q: string)
    requires p + x + q == p + y + q
    ensures x == y
  {
    assert x == (p + x + q)[|p|..|p| + |x|];
    assert y == (p + y + q)[|p|..|p| + |y|];
  }

  /** A syntax-error message names its offset: distinct offsets give distinct messages. */
  lemma TriageNamesOffset(a: int, b: int)
    requires MinInt64 <= a <= MaxInt64 && MinInt64 <= b <= MaxInt64
    requires TriageJSONError(SyntaxError(a)) == TriageJSONError(SyntaxError(b))
    ensures a == b
  {
    StripAffixes("body contains badly-formed JSON (at character ", Itoa(a), Itoa(b), ")");
    ItoaInjective(a, b);
  }

  /** A type-error message names its field when there is one, else its offset. */
  lemma TriageNamesField(f1: string, o1: int, f2: string, o2: int)
    requires MinInt64 <= o1 <= MaxInt64 && MinInt64 <= o2 <= MaxInt64
    requires (f1 == "") == (f2 == "")
    requires TriageJSONError(UnmarshalTypeError(f1, o1)) == TriageJSONError(UnmarshalTypeError(f2, o2))
    ensures f1 == f2
    ensures f1 == "" ==> o1 == o2
  {
    if f1 != "" {
      StripAffixes("body contains incorrect JSON type for field ", Quote(f1), Quote(f2), "");
      StripAffixes("\"", Escape(f1), Escape(f2), "\"");
      EscapeInjective(f1, f2);
    } else {
      StripAffixes("body contains incorrect JSON type (at character ", Itoa(o1), Itoa(o2), ")");
      ItoaInjective(o1, o2);
    }
  }

  /** An oversize-body message names the limit. */
  lemma TriageNamesLimit(a: int, b: int)
    requires MinInt64 <= a <= MaxInt64 && MinInt64 <= b <= MaxInt64
    requires TriageJSONError(MaxBytesError(a)) == TriageJSONError(MaxBytesError(b))
    ensures a == b
  {
    StripAffixes("body must not be larger than ", Itoa(a), Itoa(b), " bytes");
    ItoaInjective(a, b);
  }
}
