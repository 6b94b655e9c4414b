/** The API exception classes and the exception-to-response mapping (core/exceptions.py). */
module Exceptions {
  import opened Wrappers
  import opened Responses

  /** The exception classes of the project. */
  datatype ExceptionKind = CustomApi | BadRequest | Unauthorized | NotFound | InternalServerError

  /** An exception's `detail`: a message, or a structure (a serializer's field errors) together
      with its `str()` rendering, which the library produces and the model takes as given. */
  datatype Detail = Text(text: string) | Structured(value: Value, rendered: string)

  /** An API exception: its class, its detail and the status code it answers with. */
  datatype ApiException = ApiException(kind: ExceptionKind, detail: Detail, statusCode: int)

  /** Anything a view can raise: an API exception, or any other exception with its `str()`. */
  datatype Raised = Api(exc: ApiException) | Other(text: string)

  /** Each class's `status_code`. */
  function DefaultStatus(kind: ExceptionKind): (code: int)
    ensures kind == CustomApi || kind == BadRequest <==> code == 400
    ensures kind == Unauthorized <==> code == 401
    ensures kind == NotFound <==> code == 404
    ensures kind == InternalServerError <==> code == 500
  {
    match kind
    case CustomApi => 400
    case BadRequest => 400
    case Unauthorized => 401
    case NotFound => 404
    case InternalServerError => 500
  }

  /** Each class's `default_detail`. */
  function DefaultDetail(kind: ExceptionKind): string {
    match kind
    case CustomApi => "A server error occurred."
    case BadRequest => "Bad request."
    case Unauthorized => "Unauthorized."
    case NotFound => "Resource not found."
    case InternalServerError => "Internal server error."
  }

  /** Raising one of the fixed-status classes: the given detail or the class default, and
      the class's status code. */
  function NewException(kind: ExceptionKind, detail: Option<Detail>): (e: ApiException)
    requires kind != CustomApi
    ensures e.kind == kind && e.statusCode == DefaultStatus(kind)
    ensures e.detail == detail.GetOr(Text(DefaultDetail(kind)))
  {
    ApiException(kind, detail.GetOr(Text(DefaultDetail(kind))), DefaultStatus(kind))
  }

  /** `CustomAPIException(detail, status_code)`: 400 unless a status code is passed, in which
      case that code is adopted. */
  function NewCustomException(detail: Option<Detail>, statusCode: Option<int>): (e: ApiException)
    ensures e.kind == CustomApi
    ensures statusCode.None? ==> e.statusCode == 400
    ensures statusCode.Some? ==> e.statusCode == statusCode.value
    ensures e.detail == detail.GetOr(Text(DefaultDetail(CustomApi)))
  {
    ApiException(CustomApi, detail.GetOr(Text(DefaultDetail(CustomApi))), statusCode.GetOr(DefaultStatus(CustomApi)))
  }

  /** The detail as a response value: the message, or the structure itself. */
  function DetailValue(d: Detail): Value {
    match d
    case Text(t) => Str(t)
    case Structured(v, _) => v
  }

  /** `str(detail)`. */
  function DetailString(d: Detail): string {
    match d
    case Text(t) => t
    case Structured(_, rendered) => rendered
  }

  /** `ErrorHandler.handle_exception`: an API exception gives message "Error", its detail and
      its status code; anything else gives "Internal server error", its text and 500. */
  function HandleException(exc: Raised): (r: (Envelope, int))
    ensures exc.Api? ==> r == (Error("Error", DetailValue(exc.exc.detail)), exc.exc.statusCode)
    ensures exc.Other? ==> r == (Error("Internal server error", Str(exc.text)), 500)
  {
    match exc
    case Api(e) => (Error("Error", DetailValue(e.detail)), e.statusCode)
    case Other(t) => (Error("Internal server error", Str(t)), 500)
  }

  /** The fixed-status classes answer with 400, 401, 404 and 500 whatever their detail, and
      the handler passes that code on. */
  lemma HandledStatusCodes(kind: ExceptionKind, detail: Option<Detail>)
    requires kind != CustomApi
    ensures HandleException(Api(NewException(kind, detail))).1 == DefaultStatus(kind)
    ensures HandleException(Api(NewException(kind, detail))).0.message == "Error"
    ensures detail.None? ==> HandleException(Api(NewException(kind, detail))).0.error == Str(DefaultDetail(kind))
  {
  }
}
