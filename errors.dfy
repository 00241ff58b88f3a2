/** The project-wide exception handler (eCommerce/eCommerce/exception_handler.py):
    every exception raised by a view becomes a response whose body is
    `{"errors": ...}`, chosen by the first matching class test. */
module Errors {
  import opened Base

  /** The classes an exception can be an instance of, as far as the handler
      tests them. */
  datatype Kind =
    | ValidationKind
    | AuthenticationFailedKind
    | PermissionDeniedKind
    | NotFoundKind
    | Http404Kind
    | MethodNotAllowedKind

  /** The shapes an exception detail takes: one message, a list of messages,
      or messages per field. */
  datatype Detail =
    | Message(text: string)
    | Messages(texts: seq<string>)
    | FieldMessages(fields: map<string, seq<string>>)

  /** An exception: the handled classes it is an instance of (an `isinstance`
      test is membership in `kinds`), its detail and its status code. An
      exception of no handled class has the empty set of kinds and the text of
      the exception as its detail. */
  datatype Exc = Exc(kinds: set<Kind>, detail: Detail, statusCode: int)

  /** A DRF `ValidationError`: a plain message is wrapped in a list. */
  function ValidationError(d: Detail): (e: Exc)
    ensures ValidationKind in e.kinds && e.statusCode == HttpBadRequest
  {
    Exc({ValidationKind}, d, HttpBadRequest)
  }

  /** An exception outside DRF's hierarchy (a `TypeError`, an `IntegrityError`). */
  function Unhandled(text: string): (e: Exc)
    ensures e.kinds == {}
  {
    Exc({}, Message(text), HttpServerError)
  }

  /** What DRF's default handler produced: its status and the `detail` entry of
      its data, if the data has one. None when DRF does not handle the exception. */
  datatype DrfResponse = DrfResponse(status: int, detail: Option<Detail>)

  /** What DRF's default handler gives for the exceptions this model raises:
      an exception of a DRF class keeps its status code and its detail; any
      other exception is left to the project handler (None). */
  function DrfDefault(exc: Exc): (r: Option<DrfResponse>)
    ensures r.None? <==> exc.kinds == {}
  {
    if exc.kinds == {} then None else Some(DrfResponse(exc.statusCode, Some(exc.detail)))
  }

  /** `{"errors": detail}` or `{"errors": {"detail": detail}}`. */
  datatype ErrorsBody = Verbatim(detail: Detail) | DetailEntry(detail: Detail)

  datatype Response = Response(status: int, errors: ErrorsBody)

  const NotFoundText := "The requested resource was not found."
  const FallbackText := "An error occurred."
  const ServerErrorText := "A server error occurred. Please try again later."

  function MethodNotAllowedText(httpMethod: string): string {
    "Method \"" + httpMethod + "\" not allowed."
  }

  /** `custom_exception_handler(exc, context)`: `drf` is what DRF's default
      handler returned for `exc`, `httpMethod` the request method. */
  function Handle(exc: Exc, drf: Option<DrfResponse>, httpMethod: string): (r: Response)
    ensures r.errors.Verbatim? <==> ValidationKind in exc.kinds
    ensures r.status in {exc.statusCode, HttpBadRequest, HttpNotFound, HttpMethodNotAllowed, HttpServerError} ||
            (drf.Some? && r.status == drf.value.status)
  {
    if ValidationKind in exc.kinds then
      Response(HttpBadRequest, Verbatim(exc.detail))
    else if AuthenticationFailedKind in exc.kinds || PermissionDeniedKind in exc.kinds then
      Response(exc.statusCode, DetailEntry(exc.detail))
    else if NotFoundKind in exc.kinds || Http404Kind in exc.kinds then
      Response(HttpNotFound, DetailEntry(Message(NotFoundText)))
    else if MethodNotAllowedKind in exc.kinds then
      Response(HttpMethodNotAllowed, DetailEntry(Message(MethodNotAllowedText(httpMethod))))
    else if drf.Some? then
      Response(drf.value.status,
               DetailEntry(if drf.value.detail.Some? then drf.value.detail.value else Message(FallbackText)))
    else
      Response(HttpServerError, DetailEntry(Message(ServerErrorText)))
  }

  /** A validation error is answered with 400 and its detail as it stands,
      whatever other classes the exception also belongs to. */
  lemma ValidationErrorIsBadRequest(exc: Exc, drf: Option<DrfResponse>, httpMethod: string)
    requires ValidationKind in exc.kinds
    ensures Handle(exc, drf, httpMethod) == Response(HttpBadRequest, Verbatim(exc.detail))
  {
  }

  /** Authentication and permission failures keep their own status and wrap
      the detail under 'detail'. */
  lemma AuthFailureKeepsStatus(exc: Exc, drf: Option<DrfResponse>, httpMethod: string)
    requires ValidationKind !in exc.kinds
    requires AuthenticationFailedKind in exc.kinds || PermissionDeniedKind in exc.kinds
    ensures Handle(exc, drf, httpMethod) == Response(exc.statusCode, DetailEntry(exc.detail))
  {
  }

  /** Every not-found answer is the same 404, whatever the exception says. */
  lemma NotFoundIsUniform(e1: Exc, e2: Exc, drf1: Option<DrfResponse>, drf2: Option<DrfResponse>, m1: string, m2: string)
    requires forall e :: e == e1 || e == e2 ==>
               ValidationKind !in e.kinds && AuthenticationFailedKind !in e.kinds &&
               PermissionDeniedKind !in e.kinds && (NotFoundKind in e.kinds || Http404Kind in e.kinds)
    ensures Handle(e1, drf1, m1) == Handle(e2, drf2, m2)
    ensures Handle(e1, drf1, m1) == Response(HttpNotFound, DetailEntry(Message(NotFoundText)))
  {
  }

  /** A method-not-allowed answer is 405 and names the request method. */
  lemma MethodNotAllowedNamesMethod(exc: Exc, drf: Option<DrfResponse>, httpMethod: string)
    requires exc.kinds == {MethodNotAllowedKind}
    ensures var r := Handle(exc, drf, httpMethod);
            r.status == HttpMethodNotAllowed && r.errors.DetailEntry? && r.errors.detail.Message? &&
            var t := r.errors.detail.text;
            |t| == |httpMethod| + 22 && t[8..8 + |httpMethod|] == httpMethod
  {
    var t := MethodNotAllowedText(httpMethod);
    assert t == "Method \"" + httpMethod + "\" not allowed.";
    assert t[8..8 + |httpMethod|] == httpMethod;
  }

  /** Another exception DRF handles keeps DRF's status; its detail, or a
      generic message when DRF's data has none, goes under 'detail'. */
  lemma OtherApiErrorKeepsDrfStatus(exc: Exc, d: DrfResponse, httpMethod: string)
    requires exc.kinds == {}
    ensures Handle(exc, Some(d), httpMethod) ==
              Response(d.status, DetailEntry(if d.detail.Some? then d.detail.value else Message(FallbackText)))
  {
  }

  /** An exception neither DRF nor the handler recognises becomes a 500 whose
      body does not depend on the exception at all: its text never leaks. */
  lemma ServerErrorHidesException(e1: Exc, e2: Exc, m1: string, m2: string)
    requires e1.kinds == {} && e2.kinds == {}
    ensures Handle(e1, None, m1) == Handle(e2, None, m2)
    ensures Handle(e1, None, m1) == Response(HttpServerError, DetailEntry(Message(ServerErrorText)))
  {
  }
}
