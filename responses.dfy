/** The outcome of a controller action: its status code and what its JSON body carries. */
module Responses {

  /** The fixed `details` text of the 500 answers that do not leak the exception. */
  const UnexpectedError: string := "An unexpected error occurred. Please try again later."

  datatype Response<T> =
    | Success(status: int, data: T)            // 200 or 201 with the resource
    | Invalid(status: int, fields: set<string>) // 400 or 422 with the fields that failed validation
    | NotFound                                  // 404
    | Unauthorized                              // 401
    | ServerError(details: string)              // 500
  {
    /** The HTTP status code of the answer. */
    function Code(): (c: int)
      ensures Success? || Invalid? ==> c == status
      ensures NotFound? ==> c == 404
      ensures Unauthorized? ==> c == 401
      ensures ServerError? ==> c == 500
    {
      match this
      case Success(s, _) => s
      case Invalid(s, _) => s
      case NotFound => 404
      case Unauthorized => 401
      case ServerError(_) => 500
    }
  }
}
