/**
 * The /api/comments endpoints: request validation, then the method-security rule, then one
 * call into the comment service, wrapped in an envelope.
 */
module CommentController {
  import opened Wrappers
  import opened Entities
  import opened Errors
  import opened ApiResponses
  import opened Repositories
  import opened TaskDtos
  import opened Web
  import Authorization
  import CommentSecurity
  import CommentService
  import AppConstants

  /** POST /create: validated, any authenticated caller, answered with envelope status 201 and the comment. */
  method CreateCommentEndpoint(db: Database, caller: Authorization.Caller, dto: CommentRequestDto,
                               now: DateTime) returns (reply: Reply)
    requires db.Valid()
    modifies db
    ensures db.Valid()
    ensures CommentRequestViolations(dto) != [] ==>
              reply == FailureReply(ArgumentNotValid(CommentRequestViolations(dto))) && unchanged(db)
    ensures CommentRequestViolations(dto) == [] && !Authorization.Permits(db, caller, Authorization.CreateComment) ==>
              reply == Propagate(AuthorizationDenied) && unchanged(db)
    ensures CommentRequestViolations(dto) == [] && Authorization.Permits(db, caller, Authorization.CreateComment) ==>
              && (dto.taskId.value !in old(db.tasks) ==>
                    reply == Answer(Error(404, AppConstants.TASK_NOT_FOUND_PLAIN, None)) && unchanged(db))
              && (dto.taskId.value in old(db.tasks) && dto.authorId.value !in old(db.users) ==>
                    reply == Answer(Error(404, AppConstants.AUTHOR_NOT_FOUND, None)) && unchanged(db))
              && (dto.taskId.value in old(db.tasks) && dto.authorId.value in old(db.users) ==>
                    var id := old(db.nextCommentId);
                    var c := Comment(id, dto.content.value, now, dto.taskId.value, dto.authorId.value, 0);
                    && id !in old(db.comments)
                    && db.comments == old(db.comments)[id := c]
                    && db.nextCommentId == id + 1
                    && CommentConstraints(c)
                    && reply == Answer(Created(AppConstants.COMMENT_CREATED, Some(CommentData(CommentService.MapToDto(c))))))
    ensures CommentsKept(old(db.comments), db.comments)
    ensures db.users == old(db.users) && db.tasks == old(db.tasks) && db.notifications == old(db.notifications)
    ensures db.nextUserId == old(db.nextUserId) && db.nextTaskId == old(db.nextTaskId)
  {
    var errs := CommentRequestViolations(dto);
    if errs != [] {
      return FailureReply(ArgumentNotValid(errs));
    }
    if !Authorization.Permits(db, caller, Authorization.CreateComment) {
      return Propagate(AuthorizationDenied);
    }
    var r := CommentService.CreateComment(db, dto, now);
    reply := CreatedReply(AppConstants.COMMENT_CREATED, MapResult(r, (c: CommentDto) => CommentData(c)));
  }

  /** GET /{taskId}/info?page&size: any authenticated caller; page defaults to 0 and size
      to 10; answered 200 with one page of the task's comments. */
  function GetCommentsByTaskEndpoint(db: Database, caller: Authorization.Caller, taskId: int,
                                     page: Option<int>, size: Option<int>): (reply: Reply)
    reads db
    requires db.Valid()
    ensures !Authorization.Permits(db, caller, Authorization.GetCommentsByTask) ==> reply == Propagate(AuthorizationDenied)
    ensures Authorization.Permits(db, caller, Authorization.GetCommentsByTask) ==>
              var p, s := ParamOrDefault(page, 0), ParamOrDefault(size, 10);
              && (p >= 0 && s >= 1 ==>
                    && reply.Answer? && reply.response.status == 200
                    && reply.response.message == AppConstants.COMMENT_FETCH
                    && reply.response.data == Some(CommentPage(CommentService.GetCommentsByTaskId(db, taskId, p, s).value)))
              && (!(p >= 0 && s >= 1) ==> reply == Answer(Error(500, AppConstants.INTERNAL_SERVER_ERROR, None)))
  {
    if !Authorization.Permits(db, caller, Authorization.GetCommentsByTask) then Propagate(AuthorizationDenied)
    else SuccessReply(AppConstants.COMMENT_FETCH,
                      MapResult(CommentService.GetCommentsByTaskId(db, taskId, ParamOrDefault(page, 0), ParamOrDefault(size, 10)),
                                (p: Page<CommentDto>) => CommentPage(p)))
  }

  /** DELETE /{commentId}/delete: a ROLE_USER holder or the comment's author; answered 200
      with null data. */
  method DeleteCommentEndpoint(db: Database, caller: Authorization.Caller, commentId: int) returns (reply: Reply)
    requires db.Valid()
    modifies db
    ensures db.Valid()
    ensures !old(Authorization.Permits(db, caller, Authorization.DeleteComment(commentId))) ==>
              reply == Propagate(AuthorizationDenied) && unchanged(db)
    ensures old(Authorization.Permits(db, caller, Authorization.DeleteComment(commentId))) ==>
              && (commentId !in old(db.comments) ==>
                    reply == Answer(Error(404, AppConstants.COMMENT_NOT_FOUND, None)) && unchanged(db))
              && (commentId in old(db.comments) ==>
                    && db.comments == old(db.comments) - {commentId}
                    && reply == Answer(Success(AppConstants.COMMENT_DELETE, None)))
    ensures db.users == old(db.users) && db.tasks == old(db.tasks) && db.notifications == old(db.notifications)
    ensures db.nextUserId == old(db.nextUserId) && db.nextTaskId == old(db.nextTaskId)
    ensures db.nextCommentId == old(db.nextCommentId)
  {
    if !Authorization.Permits(db, caller, Authorization.DeleteComment(commentId)) {
      return Propagate(AuthorizationDenied);
    }
    var r := CommentService.DeleteComment(db, commentId);
    reply := DoneReply(AppConstants.COMMENT_DELETE, r);
  }
}
