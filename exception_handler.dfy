/**
 * The boundary that turns an exception into a response envelope, or lets it pass on to the
 * security layer.
 */
module GlobalExceptionHandler {
  import opened Wrappers
  import opened Errors
  import opened ApiResponses
  import AppConstants

  /** What a handler does with an exception: answer with an envelope, or rethrow it. */
  datatype Handled = Respond(response: ApiResponse<map<string, string>>) | Rethrow(failure: Failure)

  /**
   * The field -> message map that putting each error into an empty map, in order, yields:
   * a later error for a field replaces an earlier one.
   */
  function ErrorMap(errors: seq<FieldError>): map<string, string>
    decreases |errors|
  {
    if |errors| == 0 then map[]
    else
      var last := errors[|errors| - 1];
      ErrorMap(errors[..|errors| - 1])[last.field := last.message]
  }

  /**
   * A field is in the map exactly when some error names it, and its message is that of the
   * last error naming it.
   */
  lemma {:induction false} ErrorMapLastWins(errors: seq<FieldError>, f: string)
    ensures f in ErrorMap(errors) <==> exists i :: 0 <= i < |errors| && errors[i].field == f
    ensures f in ErrorMap(errors) ==>
              exists i :: 0 <= i < |errors| && errors[i].field == f
                          && ErrorMap(errors)[f] == errors[i].message
                          && forall j :: i < j < |errors| ==> errors[j].field != f
    decreases |errors|
  {
    if |errors| > 0 {
      var n := |errors| - 1;
      var init := errors[..n];
      ErrorMapLastWins(init, f);
      if errors[n].field != f {
        if f in ErrorMap(init) {
          var i :| 0 <= i < |init| && init[i].field == f && ErrorMap(init)[f] == init[i].message
                   && forall j :: i < j < |init| ==> init[j].field != f;
          assert errors[i] == init[i];
        }
        if exists i :: 0 <= i < |errors| && errors[i].field == f {
          var i :| 0 <= i < |errors| && errors[i].field == f;
          assert init[i] == errors[i];
        }
      }
    }
  }

  /**
   * handleValidation: collects the field errors into a map in a loop, one put per error,
   * and answers 400 "Validation failed" with that map as data.
   */
  method HandleValidation(errors: seq<FieldError>) returns (resp: ApiResponse<map<string, string>>)
    ensures resp.status == 400 && resp.message == AppConstants.VALIDATION_FAILED
    ensures resp.data == Some(ErrorMap(errors))
  {
    var m: map<string, string> := map[];
    var i := 0;
    while i < |errors|
      invariant 0 <= i <= |errors|
      invariant m == ErrorMap(errors[..i])
    {
      assert errors[..i + 1][..i] == errors[..i];
      m := m[errors[i].field := errors[i].message];
      i := i + 1;
    }
    assert errors[..|errors|] == errors;
    resp := Error(400, AppConstants.VALIDATION_FAILED, Some(m));
  }

  /**
   * The handler chosen for each exception: 404 with the message for a missing resource, 400
   * with the field map for invalid arguments, 409 with the message for a conflict, 401 with a
   * fixed message for bad credentials; access and authorization denials are rethrown; every
   * other exception is an opaque 500.
   */
  function Handle(f: Failure): (h: Handled)
    ensures h.Rethrow? <==> f.AccessDenied? || f.AuthorizationDenied?
    ensures h.Rethrow? ==> h.failure == f
    ensures h.Respond? ==> h.response.status in {400, 401, 404, 409, 500}
    ensures h.Respond? && !f.ArgumentNotValid? ==> h.response.data == None
    ensures f.ResourceNotFound? ==> h == Respond(Error(404, f.message, None))
    ensures f.Conflict? ==> h == Respond(Error(409, f.message, None))
    ensures f.BadCredentials? ==> h == Respond(Error(401, AppConstants.INVALID_CREDENTIALS, None))
    ensures f.ArgumentNotValid? ==>
              h == Respond(Error(400, AppConstants.VALIDATION_FAILED, Some(ErrorMap(f.errors))))
    ensures f.UsernameNotFound? || f.Internal? ==>
              h == Respond(Error(500, AppConstants.INTERNAL_SERVER_ERROR, None))
  {
    match f
    case ResourceNotFound(m) => Respond(Error(404, m, None))
    case ArgumentNotValid(errs) => Respond(Error(400, AppConstants.VALIDATION_FAILED, Some(ErrorMap(errs))))
    case AccessDenied(_) => Rethrow(f)
    case AuthorizationDenied => Rethrow(f)
    case Conflict(m) => Respond(Error(409, m, None))
    case BadCredentials => Respond(Error(401, AppConstants.INVALID_CREDENTIALS, None))
    case UsernameNotFound(_) => Respond(Error(500, AppConstants.INTERNAL_SERVER_ERROR, None))
    case Internal(_) => Respond(Error(500, AppConstants.INTERNAL_SERVER_ERROR, None))
  }
}
