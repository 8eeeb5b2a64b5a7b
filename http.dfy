/**
 * What the middleware and the exception handler see of a request, of a thrown exception
 * and of the response they produce.
 */
module Http {
  import opened Wrappers
  import opened Text

  /** A request: its path without the leading slash, its `Accept` preference and its `Authorization` header. */
  datatype Request = Request(path: string, wantsJson: bool, authorization: Option<string>)

  /** `$request->is('api/...')`: the path starts with `api/`. */
  predicate IsApi(path: string)
  {
    StartsWith(path, "api/")
  }

  /**
   * The class of a thrown value. `NotFoundHttp` is the one `HttpException` subclass the
   * code names; `OtherHttp` stands for every other `HttpException`; `NonException` is a PHP
   * `Error`, which is `Throwable` but not an `Exception`.
   */
  datatype Kind =
    | Authentication
    | Validation
    | NotFoundHttp
    | OtherHttp
    | OAuthServer
    | OtherException
    | NonException

  /** `$e instanceof HttpException`. */
  predicate IsHttpException(k: Kind)
  {
    k == NotFoundHttp || k == OtherHttp
  }

  /** `$e instanceof \Exception`. */
  predicate IsException(k: Kind)
  {
    k != NonException
  }

  /**
   * A thrown value: its class, `getMessage()`, the per-field messages of a validation
   * failure, the status code of an HTTP or OAuth exception, and an OAuth exception's
   * error type and hint.
   */
  datatype Throwable = Throwable(
    kind: Kind,
    message: string,
    fieldErrors: map<string, seq<string>>,
    statusCode: int,
    errorType: string,
    hint: string)

  /** `getStatusCode()` of an HTTP exception: a not-found exception always reports 404. */
  function HttpStatus(e: Throwable): (c: int)
    requires IsHttpException(e.kind)
    ensures e.kind == NotFoundHttp ==> c == 404
    ensures e.kind == OtherHttp ==> c == e.statusCode
  {
    if e.kind == NotFoundHttp then 404 else e.statusCode
  }

  /** A JSON body field: a string, or the per-field messages of a validation failure. */
  datatype JsonValue = Text(s: string) | FieldErrors(errors: map<string, seq<string>>)

  /** A response: JSON with its status, a rendered view, or the framework's own rendering of an exception. */
  datatype HttpResponse =
    | Json(status: int, body: map<string, JsonValue>)
    | View(status: int, name: string)
    | Rendered(e: Throwable)

  /** What the next handler in the pipeline did: answered, or threw. */
  datatype Outcome = Returned(response: HttpResponse) | Threw(error: Throwable)
}
