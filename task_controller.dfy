/**
 * The /api/tasks endpoints: request validation against the current date, then the
 * method-security rule, then one call into the task service, wrapped in an envelope.
 */
module TaskController {
  import opened Wrappers
  import opened Text
  import opened Entities
  import opened Errors
  import opened ApiResponses
  import opened Repositories
  import opened TaskDtos
  import opened Web
  import Authorization
  import TaskService
  import AppConstants

  /** POST /create: validated, ROLE_USER or ROLE_ADMIN, answered with envelope status 201 and the new task. */
  method CreateTaskEndpoint(db: Database, caller: Authorization.Caller, dto: TaskRequestDto, today: Date,
                            saveFails: bool) returns (reply: Reply)
    requires db.Valid()
    modifies db
    ensures db.Valid()
    ensures TaskRequestViolations(dto, today) != [] ==>
              reply == FailureReply(ArgumentNotValid(TaskRequestViolations(dto, today))) && unchanged(db)
    ensures TaskRequestViolations(dto, today) == [] && !Authorization.Permits(db, caller, Authorization.CreateTask) ==>
              reply == Propagate(AuthorizationDenied) && unchanged(db)
    ensures TaskRequestViolations(dto, today) == [] && Authorization.Permits(db, caller, Authorization.CreateTask) ==>
              && (dto.assignedUserId.value !in old(db.users) ==>
                    && reply == Answer(Error(404, AppConstants.USER_NOT_AVAILABLE + IntToString(dto.assignedUserId.value), None))
                    && unchanged(db))
              && (dto.assignedUserId.value in old(db.users) && saveFails ==>
                    && reply == Answer(Error(500, AppConstants.INTERNAL_SERVER_ERROR, None))
                    && db.tasks == old(db.tasks) && db.nextTaskId == old(db.nextTaskId)
                    && db.notifications == old(db.notifications) + [AppConstants.CREATED_PREFIX + dto.title.value])
              && (dto.assignedUserId.value in old(db.users) && !saveFails ==>
                    var id := old(db.nextTaskId);
                    && id !in old(db.tasks) && id in db.tasks
                    && db.tasks == old(db.tasks)[id := db.tasks[id]]
                    && TaskService.CarriesRequest(db.tasks[id], dto)
                    && db.tasks[id].id == id && db.tasks[id].version == 0
                    && TaskConstraints(db.tasks[id], today)
                    && db.nextTaskId == id + 1
                    && db.notifications == old(db.notifications) + [AppConstants.CREATED_PREFIX + dto.title.value]
                    && reply == Answer(Created(AppConstants.TASK_CREATED, Some(TaskData(TaskService.ToDto(db.tasks[id]))))))
    ensures db.users == old(db.users) && db.comments == old(db.comments)
    ensures db.nextUserId == old(db.nextUserId) && db.nextCommentId == old(db.nextCommentId)
  {
    var errs := TaskRequestViolations(dto, today);
    if errs != [] {
      return FailureReply(ArgumentNotValid(errs));
    }
    if !Authorization.Permits(db, caller, Authorization.CreateTask) {
      return Propagate(AuthorizationDenied);
    }
    var r := TaskService.CreateTask(db, dto, saveFails);
    if r.Ok? {
      TaskService.CarriedRequestMeetsConstraints(db.tasks[old(db.nextTaskId)], dto, today);
    }
    reply := CreatedReply(AppConstants.TASK_CREATED, MapResult(r, (t: TaskDto) => TaskData(t)));
  }

  /** GET /{id}/info: ROLE_USER or ROLE_ADMIN, answered 200 with the task. */
  function GetTaskEndpoint(db: Database, caller: Authorization.Caller, id: int): (reply: Reply)
    reads db
    ensures !Authorization.Permits(db, caller, Authorization.GetTask) ==> reply == Propagate(AuthorizationDenied)
    ensures Authorization.Permits(db, caller, Authorization.GetTask) && id !in db.tasks ==>
              reply == Answer(Error(404, AppConstants.TASK_NOT_FOUND + IntToString(id), None))
    ensures Authorization.Permits(db, caller, Authorization.GetTask) && id in db.tasks ==>
              reply == Answer(Success(AppConstants.TASK_FETCH, Some(TaskData(TaskService.ToDto(db.tasks[id])))))
  {
    if !Authorization.Permits(db, caller, Authorization.GetTask) then Propagate(AuthorizationDenied)
    else SuccessReply(AppConstants.TASK_FETCH,
                      MapResult(TaskService.GetTaskById(db, id), (t: TaskDto) => TaskData(t)))
  }

  /** GET /all-tasks?page&size: administrators only; page defaults to 0 and size to 10. */
  function GetAllTasksEndpoint(db: Database, caller: Authorization.Caller, page: Option<int>, size: Option<int>)
      : (reply: Reply)
    reads db
    requires db.Valid()
    ensures !Authorization.Permits(db, caller, Authorization.GetAllTasks) ==> reply == Propagate(AuthorizationDenied)
    ensures Authorization.Permits(db, caller, Authorization.GetAllTasks) ==>
              var p, s := ParamOrDefault(page, 0), ParamOrDefault(size, 10);
              && (reply.Answer? && reply.response.status == 200 <==> p >= 0 && s >= 1)
              && (p >= 0 && s >= 1 ==>
                    && reply.response.message == AppConstants.TASK_FETCH
                    && reply.response.data == Some(TaskPage(TaskService.GetAllTasks(db, PageRequest(p, s)))))
              && (!(p >= 0 && s >= 1) ==> reply == Answer(Error(500, AppConstants.INTERNAL_SERVER_ERROR, None)))
  {
    if !Authorization.Permits(db, caller, Authorization.GetAllTasks) then Propagate(AuthorizationDenied)
    else
      match PageRequestOf(ParamOrDefault(page, 0), ParamOrDefault(size, 10))
      case Err(f) => FailureReply(f)
      case Ok(req) => Answer(Success(AppConstants.TASK_FETCH, Some(TaskPage(TaskService.GetAllTasks(db, req)))))
  }

  /** Without query parameters the listing is the first page of ten tasks. */
  lemma DefaultListingIsFirstTen(db: Database, name: string, authorities: set<string>)
    requires db.Valid() && "ROLE_ADMIN" in authorities
    ensures GetAllTasksEndpoint(db, Authorization.Authenticated(name, authorities), None, None)
            == Answer(Success(AppConstants.TASK_FETCH, Some(TaskPage(TaskService.GetAllTasks(db, PageRequest(0, 10))))))
  {
    Authorization.HasRoleIsMembership(name, authorities);
  }

  /** PUT /{id}/update: validated, ROLE_USER or ROLE_ADMIN, answered 200 with the task. */
  method UpdateTaskEndpoint(db: Database, caller: Authorization.Caller, id: int, dto: TaskRequestDto,
                            today: Date, saveConflicts: bool) returns (reply: Reply)
    requires db.Valid()
    modifies db
    ensures db.Valid()
    ensures TaskRequestViolations(dto, today) != [] ==>
              reply == FailureReply(ArgumentNotValid(TaskRequestViolations(dto, today))) && unchanged(db)
    ensures TaskRequestViolations(dto, today) == [] && !Authorization.Permits(db, caller, Authorization.UpdateTask) ==>
              reply == Propagate(AuthorizationDenied) && unchanged(db)
    ensures TaskRequestViolations(dto, today) == [] && Authorization.Permits(db, caller, Authorization.UpdateTask) ==>
              && (id !in old(db.tasks) ==>
                    reply == Answer(Error(404, AppConstants.TASK_NOT_FOUND + IntToString(id), None)))
              && (id in old(db.tasks) && dto.assignedUserId.value !in old(db.users) ==>
                    reply == Answer(Error(404, AppConstants.USER_NOT_FOUND + IntToString(dto.assignedUserId.value), None)))
              && (id in old(db.tasks) && dto.assignedUserId.value in old(db.users) && saveConflicts ==>
                    reply == Answer(Error(409, AppConstants.CONFLICT_EXCEPTION, None)))
              && (id in old(db.tasks) && dto.assignedUserId.value in old(db.users) && !saveConflicts ==>
                    && id in db.tasks
                    && db.tasks == old(db.tasks)[id := db.tasks[id]]
                    && TaskService.CarriesRequest(db.tasks[id], dto)
                    && db.tasks[id].id == id
                    && db.tasks[id].version == TaskService.FlushedVersion(old(db.tasks[id]), db.tasks[id])
                    && TaskConstraints(db.tasks[id], today)
                    && db.notifications == old(db.notifications) + [AppConstants.UPDATED_PREFIX + dto.title.value]
                    && reply == Answer(Success(AppConstants.TASK_UPDATE, Some(TaskData(TaskService.ToDto(db.tasks[id]))))))
    ensures !(reply.Answer? && reply.response.status == 200) ==> unchanged(db)
    ensures db.users == old(db.users) && db.comments == old(db.comments)
    ensures db.nextUserId == old(db.nextUserId) && db.nextTaskId == old(db.nextTaskId)
    ensures db.nextCommentId == old(db.nextCommentId)
  {
    var errs := TaskRequestViolations(dto, today);
    if errs != [] {
      return FailureReply(ArgumentNotValid(errs));
    }
    if !Authorization.Permits(db, caller, Authorization.UpdateTask) {
      return Propagate(AuthorizationDenied);
    }
    var r := TaskService.UpdateTask(db, id, dto, saveConflicts);
    if r.Ok? {
      TaskService.CarriedRequestMeetsConstraints(db.tasks[id], dto, today);
    }
    reply := SuccessReply(AppConstants.TASK_UPDATE, MapResult(r, (t: TaskDto) => TaskData(t)));
  }

  /** DELETE /{id}/delete: administrators only, answered 200 with null data. */
  method DeleteTaskEndpoint(db: Database, caller: Authorization.Caller, id: int) returns (reply: Reply)
    requires db.Valid()
    modifies db
    ensures db.Valid()
    ensures !Authorization.Permits(db, caller, Authorization.DeleteTask) ==>
              reply == Propagate(AuthorizationDenied) && unchanged(db)
    ensures Authorization.Permits(db, caller, Authorization.DeleteTask) ==>
              && (id !in old(db.tasks) ==>
                    reply == Answer(Error(404, AppConstants.TASK_NOT_FOUND + IntToString(id), None)))
              && (id in old(db.tasks) && TaskService.AssignedUser(old(db.users), old(db.tasks[id])).None? ==>
                    reply == Propagate(AccessDenied(AppConstants.UNASSIGNED_TASK_DELETE)))
              && (id in old(db.tasks) && TaskService.AssignedUser(old(db.users), old(db.tasks[id])).Some?
                  && IsNotAdminRole(TaskService.AssignedUser(old(db.users), old(db.tasks[id])).value.roles) ==>
                    reply == Propagate(AccessDenied(AppConstants.ACCESS_DENIED)))
              && (id in old(db.tasks) && TaskService.AssignedUser(old(db.users), old(db.tasks[id])).Some?
                  && !IsNotAdminRole(TaskService.AssignedUser(old(db.users), old(db.tasks[id])).value.roles) ==>
                    reply == Answer(Success(AppConstants.TASK_DELETE, None)))
    ensures reply == Answer(Success(AppConstants.TASK_DELETE, None)) ==>
              && id in old(db.tasks)
              && db.tasks == old(db.tasks) - {id}
              && db.comments == TaskService.CascadeDelete(old(db.comments), id)
              && db.notifications == old(db.notifications) + [AppConstants.DELETED_PREFIX + old(db.tasks[id].title)]
    ensures reply != Answer(Success(AppConstants.TASK_DELETE, None)) ==> unchanged(db)
    ensures db.users == old(db.users)
    ensures db.nextUserId == old(db.nextUserId) && db.nextTaskId == old(db.nextTaskId)
    ensures db.nextCommentId == old(db.nextCommentId)
  {
    if !Authorization.Permits(db, caller, Authorization.DeleteTask) {
      return Propagate(AuthorizationDenied);
    }
    var r := TaskService.DeleteTask(db, id);
    reply := DoneReply(AppConstants.TASK_DELETE, r);
  }
}
