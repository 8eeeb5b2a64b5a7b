/**
 * The application's exception `Handler`: JSON for requests that want JSON or whose path is under
 * `api/`, the framework's own rendering otherwise. An HTTP exception keeps its status
 * code; anything else answers 500. The `error` field always carries the message.
 */
module ExceptionHandler {
  import opened Text
  import opened Http
  import ExceptionMiddleware

  /** The `message` field: an HTTP exception's own message (or `HTTP Error` when PHP finds it empty). */
  function MessageFor(e: Throwable): (m: string)
    ensures IsHttpException(e.kind) && !Falsy(e.message) ==> m == e.message
    ensures IsHttpException(e.kind) && Falsy(e.message) ==> m == "HTTP Error"
    ensures !IsHttpException(e.kind) ==> m == "An error occurred."
  {
    if IsHttpException(e.kind) then (if Falsy(e.message) then "HTTP Error" else e.message)
    else "An error occurred."
  }

  /** `handleApiException`. */
  function ApiResponse(e: Throwable): (r: HttpResponse)
    ensures r.Json? && r.body.Keys == {"message", "error"}
    ensures r.body["error"] == Text(e.message)
    ensures r.body["message"] == Text(MessageFor(e))
    ensures IsHttpException(e.kind) ==> r.status == HttpStatus(e)
    ensures !IsHttpException(e.kind) ==> r.status == 500
  {
    var status := if IsHttpException(e.kind) then HttpStatus(e) else 500;
    Json(status, map["message" := Text(MessageFor(e)), "error" := Text(e.message)])
  }

  /** `render`. */
  function Render(req: Request, e: Throwable): (r: HttpResponse)
    ensures req.wantsJson || IsApi(req.path) ==> r == ApiResponse(e)
    ensures !(req.wantsJson || IsApi(req.path)) ==> r == Rendered(e)
  {
    if req.wantsJson || IsApi(req.path) then ApiResponse(e) else Rendered(e)
  }

  /** The JSON path is taken exactly when the request wants JSON or its path is under `api/`. */
  lemma JsonExactlyForApiOrJson(req: Request, e: Throwable)
    ensures Render(req, e).Json? <==> req.wantsJson || IsApi(req.path)
  {
  }

  /**
   * On a request under `api/` the handler and the middleware agree on the status of a
   * not-found exception and of a plain exception or error, and disagree on the rest:
   * authentication and validation failures are 401 and 422 in the middleware but 500
   * here, and an HTTP exception keeps its own status here but is 500 there.
   */
  lemma AgreementWithMiddleware(req: Request, e: Throwable)
    requires IsApi(req.path)
    ensures e.kind in {NotFoundHttp, OtherException, NonException} ==>
              Render(req, e).status == ExceptionMiddleware.Handle(req, Threw(e)).status
    ensures e.kind in {Authentication, Validation} ==>
              Render(req, e).status == 500 && ExceptionMiddleware.Handle(req, Threw(e)).status != 500
    ensures e.kind == OtherHttp ==>
              Render(req, e).status == e.statusCode && ExceptionMiddleware.Handle(req, Threw(e)).status == 500
  {
  }
}
