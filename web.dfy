/**
 * What a controller hands back: an envelope for the client, or an exception the exception
 * handler rethrows to the security framework.
 */
module Web {
  import opened Wrappers
  import opened Errors
  import opened ApiResponses
  import opened GlobalExceptionHandler
  import opened Repositories
  import opened UserDtos
  import opened TaskDtos

  /** The payloads the endpoints put in an envelope. */
  datatype Payload =
    | AuthData(auth: AuthResponse)
    | UserData(user: UserResponse)
    | UserList(users: seq<UserResponse>)
    | TaskData(task: TaskDto)
    | TaskPage(tasks: Page<TaskDto>)
    | CommentData(comment: CommentDto)
    | CommentPage(comments: Page<CommentDto>)
    | FieldErrors(errors: map<string, string>)

  datatype Reply = Answer(response: ApiResponse<Payload>) | Propagate(failure: Failure)

  /** The reply for an exception, as the exception handler shapes it. */
  function FailureReply(f: Failure): (r: Reply)
    ensures r.Propagate? <==> Handle(f).Rethrow?
    ensures r.Propagate? ==> r.failure == f
    ensures r.Answer? ==> && r.response.status == Handle(f).response.status
                           && r.response.message == Handle(f).response.message
    ensures r.Answer? ==> (r.response.data.Some? <==> f.ArgumentNotValid?)
    ensures f.ArgumentNotValid? ==> r == Answer(Error(400, Handle(f).response.message, Some(FieldErrors(ErrorMap(f.errors)))))
  {
    match Handle(f)
    case Rethrow(g) => Propagate(g)
    case Respond(resp) =>
      Answer(ApiResponse(resp.status, resp.message,
                          if resp.data.Some? then Some(FieldErrors(resp.data.value)) else None))
  }

  /** A rejected @PreAuthorize rule, rethrown by the exception handler. */
  lemma DeniedIsRethrown()
    ensures FailureReply(AuthorizationDenied) == Propagate(AuthorizationDenied)
  {
  }

  /** The payload of a successful call. */
  function MapResult<T>(r: Result<T>, f: T -> Payload): (p: Result<Payload>)
    ensures p.Ok? <==> r.Ok?
    ensures r.Ok? ==> p.value == f(r.value)
    ensures r.Err? ==> p.failure == r.failure
  {
    match r
    case Ok(v) => Ok(f(v))
    case Err(e) => Err(e)
  }

  /** A 200 envelope with the call's payload, or the reply for its exception. */
  function SuccessReply(message: string, r: Result<Payload>): (reply: Reply)
    ensures r.Ok? ==> reply == Answer(Success(message, Some(r.value)))
    ensures r.Err? ==> reply == FailureReply(r.failure)
  {
    match r
    case Ok(p) => Answer(Success(message, Some(p)))
    case Err(f) => FailureReply(f)
  }

  /** An envelope with status 201 (the HTTP status stays 200) with the call's payload, or the reply for its exception. */
  function CreatedReply(message: string, r: Result<Payload>): (reply: Reply)
    ensures r.Ok? ==> reply == Answer(Created(message, Some(r.value)))
    ensures r.Err? ==> reply == FailureReply(r.failure)
  {
    match r
    case Ok(p) => Answer(Created(message, Some(p)))
    case Err(f) => FailureReply(f)
  }

  /** A 200 envelope with null data, or the reply for the call's exception. */
  function DoneReply(message: string, r: Result<()>): (reply: Reply)
    ensures r.Ok? ==> reply == Answer(Success(message, None))
    ensures r.Err? ==> reply == FailureReply(r.failure)
  {
    match r
    case Ok(_) => Answer(Success(message, None))
    case Err(f) => FailureReply(f)
  }

  /** @RequestParam(defaultValue = ...): the given value, or the default when absent. */
  function ParamOrDefault(p: Option<int>, default: int): (v: int)
    ensures p.Some? ==> v == p.value
    ensures p.None? ==> v == default
  {
    if p.Some? then p.value else default
  }
}
