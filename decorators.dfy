/** The view decorators (core/decorators.py). A view call is modelled by its outcome: the
    response it returned or the exception it raised. Logging is not modelled. */
module Decorators {
  import opened Wrappers
  import opened Strings
  import opened Seqs
  import opened Responses
  import opened Exceptions

  /** An HTTP response: a body and a status code. */
  datatype Response = Response(body: Value, status: int)

  /** What calling a view did. */
  datatype CallOutcome = Returned(response: Response) | Raised(exc: Exceptions.Raised)

  const GenericErrorText := "An unexpected error occurred. Please try again later."

  /** The response every unexpected exception is turned into. */
  const InternalErrorResponse := Response(ToValue(Error("Internal server error", Str(GenericErrorText))), 500)

  /** `handle_api_exceptions`: a returned response passes through; an API exception becomes
      an "Error" envelope carrying `str(detail)` with the exception's status code; any other
      exception becomes the fixed 500 response. */
  function HandleApiExceptions(outcome: CallOutcome): (r: Response)
    ensures outcome.Returned? ==> r == outcome.response
    ensures outcome.Raised? && outcome.exc.Api? ==>
      r == Response(ToValue(Error("Error", Str(DetailString(outcome.exc.exc.detail)))), outcome.exc.exc.statusCode)
    ensures outcome.Raised? && outcome.exc.Other? ==> r == InternalErrorResponse
  {
    match outcome
    case Returned(resp) => resp
    case Raised(Api(e)) => Response(ToValue(Error("Error", Str(DetailString(e.detail)))), e.statusCode)
    case Raised(Other(_)) => InternalErrorResponse
  }

  /** An unexpected exception never shows its text: any two of them give the same response,
      and that response is a 500 whose error is the generic message. */
  lemma UnexpectedExceptionsHidden(t1: string, t2: string)
    ensures HandleApiExceptions(Raised(Other(t1))) == HandleApiExceptions(Raised(Other(t2)))
    ensures HandleApiExceptions(Raised(Other(t1))).status == 500
    ensures HandleApiExceptions(Raised(Other(t1))).body.fields["error"] == Str(GenericErrorText)
  {
  }

  /** The decorator and the error handler agree on the status code of every exception and
      on the message; they differ only in how a structured detail is written out. */
  lemma DecoratorAgreesWithHandler(e: ApiException)
    ensures HandleApiExceptions(Raised(Api(e))).status == HandleException(Api(e)).1
    ensures HandleApiExceptions(Raised(Api(e))).body.fields["message"] == Str(HandleException(Api(e)).0.message)
    ensures e.detail.Text? ==> HandleApiExceptions(Raised(Api(e))).body == ToValue(HandleException(Api(e)).0)
  {
  }

  /** Python truthiness of a request value. */
  predicate Truthy(v: Value) {
    match v
    case Null => false
    case Str(s) => s != ""
    case Int(i) => i != 0
    case Bool(b) => b
    case Arr(items) => items != []
    case Obj(fields) => fields != map[]
  }

  /** A required field is missing when it is absent or falsy. */
  predicate IsMissing(data: map<string, Value>, field: string) {
    field !in data || !Truthy(data[field])
  }

  /** The missing fields, in the order they are required. */
  function MissingFields(required: seq<string>, data: map<string, Value>): seq<string> {
    if required == [] then []
    else
      var init := MissingFields(required[..|required| - 1], data);
      var f := required[|required| - 1];
      if IsMissing(data, f) then init + [f] else init
  }

  /** The missing list is the required list filtered by "missing": exactly the missing fields,
      in the order given. */
  lemma {:induction false} MissingFieldsIsFilter(required: seq<string>, data: map<string, Value>)
    ensures MissingFields(required, data) == Filter(required, (f: string) => IsMissing(data, f))
  {
    if required != [] {
      MissingFieldsIsFilter(required[..|required| - 1], data);
    }
  }

  /** A field is listed exactly when it is required and missing. */
  lemma MissingFieldsMembership(required: seq<string>, data: map<string, Value>, f: string)
    ensures f in MissingFields(required, data) <==> f in required && IsMissing(data, f)
  {
    MissingFieldsIsFilter(required, data);
    FilterMembership(required, (g: string) => IsMissing(data, g), f);
  }

  /** What `validate_required_fields` decides before the view runs. */
  datatype Gate = Rejected(response: Response) | CallThrough

  /** The rejection for a non-empty missing list. */
  function MissingFieldsResponse(missing: seq<string>): Response {
    Response(ToValue(Error("Validation error", Str("Missing required fields: " + Join(missing, ", ")))), 400)
  }

  /** `validate_required_fields(required)` on a request with data `data` (`None` when there is
      no request data, which lets the call through): the view is called when no required field
      is missing; otherwise a 400 lists the missing fields and the view is not called. */
  method ValidateRequiredFields(required: seq<string>, data: Option<map<string, Value>>) returns (gate: Gate)
    ensures data.None? ==> gate == CallThrough
    ensures data.Some? ==>
      (gate == CallThrough <==> forall f :: f in required ==> !IsMissing(data.value, f))
    ensures data.Some? && gate.Rejected? ==>
      gate.response == MissingFieldsResponse(Filter(required, (f: string) => IsMissing(data.value, f)))
  {
    if data.None? {
      return CallThrough;
    }
    var missing: seq<string> := [];
    for i := 0 to |required|
      invariant missing == MissingFields(required[..i], data.value)
    {
      assert required[..i + 1][..i] == required[..i];
      if required[i] !in data.value || !Truthy(data.value[required[i]]) {
        missing := missing + [required[i]];
      }
    }
    assert required[..|required|] == required;
    MissingFieldsIsFilter(required, data.value);
    forall f | f in required ensures f in missing <==> IsMissing(data.value, f) {
      MissingFieldsMembership(required, data.value, f);
    }
    if missing != [] {
      MissingFieldsMembership(required, data.value, missing[0]);
      return Rejected(MissingFieldsResponse(missing));
    }
    return CallThrough;
  }

  /** `log_api_request`: the call's outcome, response or exception, unchanged. */
  function LogApiRequest(outcome: CallOutcome): CallOutcome {
    outcome
  }

  /** `rate_limit_by_user(max_requests, window_seconds)`: the limits are read but never
      enforced; the call's outcome passes unchanged. */
  function RateLimitByUser(maxRequests: int, windowSeconds: int, outcome: CallOutcome): CallOutcome {
    outcome
  }

  /** Stacking the logging and rate-limiting decorators under the exception handler changes
      no response, whatever the limits: no request is ever throttled. */
  lemma PassThroughDecorators(maxRequests: int, windowSeconds: int, outcome: CallOutcome)
    ensures HandleApiExceptions(LogApiRequest(RateLimitByUser(maxRequests, windowSeconds, outcome)))
         == HandleApiExceptions(outcome)
    ensures outcome.Returned? ==> RateLimitByUser(maxRequests, windowSeconds, outcome).Returned?
  {
  }
}
