/**
 * `GlobalExceptionMiddleware`: passes the downstream response through, and turns anything
 * thrown downstream into a response: a JSON error chosen by the exception's class on
 * paths under `api/`, the `errors.500` view elsewhere.
 */
module ExceptionMiddleware {
  import opened Text
  import opened Http

  /** `handleApiException`: the first matching class picks the status and the body. */
  function ApiErrorResponse(e: Throwable): (r: HttpResponse)
    ensures r.Json? && "error" in r.body
    ensures e.kind == Authentication ==> r.status == 401
    ensures e.kind == Validation ==> r.status == 422 && "messages" in r.body && r.body["messages"] == FieldErrors(e.fieldErrors)
    ensures e.kind == NotFoundHttp ==> r.status == 404
    ensures e.kind == OAuthServer ==>
              r.status == e.statusCode && r.body.Keys == {"error", "message", "hint"} &&
              r.body["error"] == Text(e.errorType) && r.body["message"] == Text(e.message) &&
              r.body["hint"] == Text(e.hint)
    ensures e.kind in {OtherHttp, OtherException, NonException} ==>
              r.status == 500 && "error-message" in r.body && r.body["error-message"] == Text(e.message)
  {
    if e.kind == Authentication then
      Json(401, map["error" := Text("Unauthenticated"), "message" := Text("You are not authenticated.")])
    else if e.kind == Validation then
      Json(422, map["error" := Text("Validation Error"), "messages" := FieldErrors(e.fieldErrors)])
    else if e.kind == NotFoundHttp then
      Json(404, map["error" := Text("Not Found"), "message" := Text("The requested resource was not found.")])
    else if e.kind == OAuthServer then
      Json(e.statusCode, map["error" := Text(e.errorType), "message" := Text(e.message), "hint" := Text(e.hint)])
    else
      Json(500, map["error" := Text("Server Error"), "message" := Text("Internal Server Error"),
                    "error-message" := Text(e.message)])
  }

  /** `handle`: the downstream answer unchanged, or the classified error. */
  function Handle(req: Request, next: Outcome): (r: HttpResponse)
    ensures next.Returned? ==> r == next.response
    ensures next.Threw? && !IsApi(req.path) ==> r == View(500, "errors.500")
    ensures next.Threw? && IsApi(req.path) ==> r == ApiErrorResponse(next.error)
  {
    match next
    case Returned(response) => response
    case Threw(e) => if IsApi(req.path) then ApiErrorResponse(e) else View(500, "errors.500")
  }

  /** The status of an error on a path under `api/`, by class. */
  function ApiStatus(k: Kind, oauthStatus: int): int
  {
    match k
    case Authentication => 401
    case Validation => 422
    case NotFoundHttp => 404
    case OAuthServer => oauthStatus
    case _ => 500
  }

  /** On paths under `api/` the status depends on the class alone (and an OAuth exception's own code), never on the message. */
  lemma ApiStatusByClass(req: Request, e: Throwable)
    requires IsApi(req.path)
    ensures Handle(req, Threw(e)).status == ApiStatus(e.kind, e.statusCode)
  {
  }

  /** Whatever is thrown, the middleware answers: a request under `api/` gets JSON, any other request the 500 view. */
  lemma ThrownAlwaysAnswered(req: Request, e: Throwable)
    ensures IsApi(req.path) <==> Handle(req, Threw(e)).Json?
    ensures !IsApi(req.path) ==> Handle(req, Threw(e)).status == 500
  {
  }

  /** Only an OAuth exception can choose its own status; every other class maps into {401, 422, 404, 500}. */
  lemma StatusesOutsideOAuth(req: Request, e: Throwable)
    requires IsApi(req.path) && e.kind != OAuthServer
    ensures Handle(req, Threw(e)).status in {401, 422, 404, 500}
  {
  }
}
