/** The application-wide exception advice: how the two application exceptions
    and a bean-validation failure become HTTP responses. */
module Exceptions {
  import opened Common

  /** The JSON envelope every endpoint answers with (statusCode, message, data). */
  datatype Response<T> = Response(statusCode: int, message: string, data: Option<T>)

  /** One field error of a failed bean validation; its default message may be null. */
  datatype FieldError = FieldError(field: string, defaultMessage: Option<string>)

  const BAD_REQUEST: int := 400
  const NOT_FOUND: int := 404

  /** handleBadRequest. */
  function HandleBadRequest(message: string): (r: Response<map<string, Option<string>>>)
    ensures r.statusCode == BAD_REQUEST && r.message == message && r.data.None?
  {
    Response(BAD_REQUEST, message, None)
  }

  /** handleNotFound. */
  function HandleNotFound(message: string): (r: Response<map<string, Option<string>>>)
    ensures r.statusCode == NOT_FOUND && r.message == message && r.data.None?
  {
    Response(NOT_FOUND, message, None)
  }

  /** The advice applied to a service error: the two application exceptions
      are answered here; any other runtime exception is not, and falls through
      to the framework's default error handling. */
  function Handle(e: Error): (r: Option<Response<map<string, Option<string>>>>)
  {
    match e
    case BadRequest(m) => Some(HandleBadRequest(m))
    case NotFound(m) => Some(HandleNotFound(m))
    case Fault(_) => None
  }

  /** The error a handled response stands for. */
  function ErrorOf(r: Response<map<string, Option<string>>>): (e: Option<Error>)
  {
    if r.data.Some? then None
    else if r.statusCode == BAD_REQUEST then Some(BadRequest(r.message))
    else if r.statusCode == NOT_FOUND then Some(NotFound(r.message))
    else None
  }

  /** The advice loses nothing: the status tells the two exceptions apart and
      the message is carried unchanged, so the error can be read back from the
      response; a runtime fault is exactly what the advice leaves unhandled. */
  lemma HandleRoundTrip(e: Error)
    ensures Handle(e).Some? <==> !e.Fault?
    ensures Handle(e).Some? ==> ErrorOf(Handle(e).value) == Some(e)
  {
  }

  /** The map handleValidation puts in the response: each error is put under
      its field in list order, so a later error for the same field replaces an
      earlier one. */
  function ErrorMap(errors: seq<FieldError>): map<string, Option<string>>
  {
    if errors == [] then map[]
    else ErrorMap(errors[..|errors| - 1])[errors[|errors| - 1].field := errors[|errors| - 1].defaultMessage]
  }

  /** Exactly the fields that have an error become keys. */
  lemma {:induction false} ErrorMapKeys(errors: seq<FieldError>)
    ensures ErrorMap(errors).Keys == set e | e in errors :: e.field
  {
    if errors != [] {
      var init := errors[..|errors| - 1];
      ErrorMapKeys(init);
      assert errors == init + [errors[|errors| - 1]];
    }
  }

  /** Each key holds the message of the LAST error listed for that field. */
  lemma {:induction false} ErrorMapLastWins(errors: seq<FieldError>, i: nat)
    requires i < |errors|
    requires forall j :: i < j < |errors| ==> errors[j].field != errors[i].field
    ensures errors[i].field in ErrorMap(errors)
    ensures ErrorMap(errors)[errors[i].field] == errors[i].defaultMessage
  {
    if i < |errors| - 1 {
      ErrorMapLastWins(errors[..|errors| - 1], i);
    }
  }

  /** handleValidation: 400, "Validation failed", and the field-to-message map
      filled by walking the field errors in order. */
  method HandleValidation(errors: seq<FieldError>) returns (r: Response<map<string, Option<string>>>)
    ensures r.statusCode == BAD_REQUEST && r.message == "Validation failed"
    ensures r.data == Some(ErrorMap(errors))
  {
    var m: map<string, Option<string>> := map[];
    var k := 0;
    while k < |errors|
      invariant 0 <= k <= |errors|
      invariant m == ErrorMap(errors[..k])
    {
      assert errors[..k + 1][..k] == errors[..k];
      m := m[errors[k].field := errors[k].defaultMessage];
      k := k + 1;
    }
    assert errors[..k] == errors;
    r := Response(BAD_REQUEST, "Validation failed", Some(m));
  }
}
