/**
 * Task creation, lookup, listing, update and deletion over the task table, with the
 * notifications each change publishes to /topic/updates. The service is transactional:
 * an operation that fails leaves every table as it was. The notification channel is not
 * part of the transaction: createTask publishes before it saves, so a failing save leaves
 * its notification sent.
 */
module TaskService {
  import opened Wrappers
  import opened Text
  import opened Entities
  import opened Errors
  import opened Repositories
  import opened TaskDtos
  import AppConstants

  /** toDTO: the task as returned to clients. */
  function ToDto(t: Task): (d: TaskDto)
    ensures d.id == t.id && d.title == t.title && d.description == t.description
    ensures d.status == t.status && d.priority == t.priority && d.targetDate == t.targetDate
  {
    TaskDto(t.id, t.title, t.description, t.status, t.priority, t.targetDate)
  }

  /** The task holds every field of the request: title, description, status, priority,
      target date and assigned user. */
  predicate CarriesRequest(t: Task, dto: TaskRequestDto)
  {
    && dto.title == Some(t.title)
    && dto.description == t.description
    && dto.status == Some(t.status)
    && dto.priority == Some(t.priority)
    && dto.targetDate == Some(t.targetDate)
    && dto.assignedUserId == t.assignee
  }

  /** A task built from a valid request meets the entity's own constraints. */
  lemma CarriedRequestMeetsConstraints(t: Task, dto: TaskRequestDto, today: Date)
    requires TaskRequestValid(dto, today) && CarriesRequest(t, dto)
    ensures TaskConstraints(t, today)
  {
  }

  /**
   * The version after the update is flushed: the optimistic-lock counter goes up by one
   * when some persistent field differs from the loaded state, and stays when none does.
   */
  function FlushedVersion(before: Task, after: Task): (v: int)
    ensures before.(version := 0) != after.(version := 0) ==> v == before.version + 1
    ensures before.(version := 0) == after.(version := 0) ==> v == before.version
  {
    if before.(version := 0) == after.(version := 0) then before.version else before.version + 1
  }

  /**
   * mapToEntity: copies the request's fields onto `task` and attaches the assigned user,
   * which must be stored.
   */
  function MapToEntity(dto: TaskRequestDto, task: Task, users: map<int, User>): (r: Result<Task>)
    requires TaskRequestComplete(dto)
    ensures r.Err? <==> dto.assignedUserId.value !in users
    ensures r.Err? ==> r.failure == ResourceNotFound(AppConstants.USER_NOT_AVAILABLE + IntToString(dto.assignedUserId.value))
    ensures r.Ok? ==> CarriesRequest(r.value, dto) && r.value.id == task.id && r.value.version == task.version
  {
    var t := task.(title := dto.title.value, description := dto.description, status := dto.status.value,
                   priority := dto.priority.value, targetDate := dto.targetDate.value);
    if dto.assignedUserId.value !in users then
      Err(ResourceNotFound(AppConstants.USER_NOT_AVAILABLE + IntToString(dto.assignedUserId.value)))
    else
      Ok(t.(assignee := dto.assignedUserId))
  }

  /**
   * createTask: a new task from the request, stored under the next key with version 0,
   * announced by one "created" notification naming the request's title. The notification
   * goes out before the save; `saveFails` is a save the persistence layer rejects, which
   * rolls the tables back but not the notification.
   */
  method CreateTask(db: Database, dto: TaskRequestDto, saveFails: bool) returns (r: Result<TaskDto>)
    requires db.Valid() && TaskRequestComplete(dto)
    modifies db
    ensures db.Valid()
    ensures r.Err? <==> dto.assignedUserId.value !in old(db.users) || saveFails
    ensures dto.assignedUserId.value !in old(db.users) ==>
              && r == Err(ResourceNotFound(AppConstants.USER_NOT_AVAILABLE + IntToString(dto.assignedUserId.value)))
              && unchanged(db)
    ensures dto.assignedUserId.value in old(db.users) && saveFails ==>
              && r == Err(Internal(AppConstants.SAVE_FAILED))
              && db.tasks == old(db.tasks) && db.nextTaskId == old(db.nextTaskId)
              && db.notifications == old(db.notifications) + [AppConstants.CREATED_PREFIX + dto.title.value]
    ensures r.Ok? ==>
              var id := old(db.nextTaskId);
              && id !in old(db.tasks) && id in db.tasks
              && db.tasks == old(db.tasks)[id := db.tasks[id]]
              && CarriesRequest(db.tasks[id], dto)
              && db.tasks[id].id == id && db.tasks[id].version == 0
              && db.nextTaskId == id + 1
              && db.notifications == old(db.notifications) + [AppConstants.CREATED_PREFIX + dto.title.value]
              && r.value == ToDto(db.tasks[id])
    ensures db.users == old(db.users) && db.comments == old(db.comments)
    ensures db.nextUserId == old(db.nextUserId) && db.nextCommentId == old(db.nextCommentId)
  {
    var mapped := MapToEntity(dto, NewTask(), db.users);
    if mapped.Err? {
      return Err(mapped.failure);
    }
    var task := mapped.value;
    db.notifications := db.notifications + [AppConstants.CREATED_PREFIX + dto.title.value];
    if saveFails {
      return Err(Internal(AppConstants.SAVE_FAILED));
    }
    task := task.(id := db.nextTaskId);
    db.tasks := db.tasks[task.id := task];
    db.nextTaskId := db.nextTaskId + 1;
    r := Ok(ToDto(task));
  }

  /** getTaskById: the stored task, or not found naming the id. */
  function GetTaskById(db: Database, id: int): (r: Result<TaskDto>)
    reads db
    ensures r.Ok? <==> id in db.tasks
    ensures r.Ok? ==> r.value == ToDto(db.tasks[id])
    ensures r.Err? ==> r.failure == ResourceNotFound(AppConstants.TASK_NOT_FOUND + IntToString(id))
  {
    if id in db.tasks then Ok(ToDto(db.tasks[id]))
    else Err(ResourceNotFound(AppConstants.TASK_NOT_FOUND + IntToString(id)))
  }

  /** The responses for the tasks under `ids`, in that order. */
  function DtosOf(tasks: map<int, Task>, ids: seq<int>): (ds: seq<TaskDto>)
    requires forall k :: 0 <= k < |ids| ==> ids[k] in tasks
    ensures |ds| == |ids|
    ensures forall k :: 0 <= k < |ids| ==> ds[k] == ToDto(tasks[ids[k]])
  {
    if ids == [] then [] else [ToDto(tasks[ids[0]])] + DtosOf(tasks, ids[1..])
  }

  /** Every stored task as returned to clients, in key order. */
  function AllTaskDtos(db: Database): (ds: seq<TaskDto>)
    reads db
  {
    DtosOf(db.tasks, OrderedIds(db.tasks.Keys, db.nextTaskId))
  }

  /** Listing the keys of a table whose records carry their keys lists every record, and
      nothing else. */
  lemma DtosListEachTask(tasks: map<int, Task>, ids: seq<int>)
    requires forall k :: 0 <= k < |ids| ==> ids[k] in tasks
    requires forall id :: id in tasks ==> id in ids
    requires forall id :: id in tasks ==> tasks[id].id == id
    ensures var ds := DtosOf(tasks, ids);
            && (forall id :: id in tasks ==> ToDto(tasks[id]) in ds)
            && (forall d :: d in ds ==> d.id in tasks && d == ToDto(tasks[d.id]))
  {
    var ds := DtosOf(tasks, ids);
    forall id | id in tasks ensures ToDto(tasks[id]) in ds {
      var k :| 0 <= k < |ids| && ids[k] == id;
      assert ds[k] == ToDto(tasks[id]);
    }
    forall d | d in ds ensures d.id in tasks && d == ToDto(tasks[d.id]) {
      var k :| 0 <= k < |ds| && ds[k] == d;
      var t := tasks[ids[k]];
      assert d == ToDto(t) && t.id == ids[k];
    }
  }

  /** The full listing holds every stored task exactly once. */
  lemma AllTaskDtosListsEachTask(db: Database)
    requires db.Valid()
    ensures |AllTaskDtos(db)| == |db.tasks|
    ensures forall id :: id in db.tasks ==> ToDto(db.tasks[id]) in AllTaskDtos(db)
    ensures forall d :: d in AllTaskDtos(db) ==> d.id in db.tasks && d == ToDto(db.tasks[d.id])
  {
    var ids := OrderedIds(db.tasks.Keys, db.nextTaskId);
    OrderedIdsCoverKeys(db.tasks, db.nextTaskId);
    forall k | 0 <= k < |ids| ensures ids[k] in db.tasks {
      assert ids[k] in ids;
    }
    DtosListEachTask(db.tasks, ids);
  }

  /** The full listing is in strictly ascending id order, so no task appears twice. */
  lemma AllTaskDtosAscending(db: Database)
    requires db.Valid()
    ensures forall a, b :: 0 <= a < b < |AllTaskDtos(db)| ==> AllTaskDtos(db)[a].id < AllTaskDtos(db)[b].id
  {
    var ids := OrderedIds(db.tasks.Keys, db.nextTaskId);
    var ds := AllTaskDtos(db);
    forall k | 0 <= k < |ids| ensures ids[k] in db.tasks && ds[k].id == ids[k] {
      assert ids[k] in ids;
    }
  }

  /** A page cut from an ascending-id listing is itself in ascending id order. */
  lemma PageKeepsAscendingIds(ds: seq<TaskDto>, req: PageRequest)
    requires req.size >= 1
    requires forall a, b :: 0 <= a < b < |ds| ==> ds[a].id < ds[b].id
    ensures var c := PageOf(ds, req).content;
            forall a, b :: 0 <= a < b < |c| ==> c[a].id < c[b].id
  {
    var c := PageOf(ds, req).content;
    forall a, b | 0 <= a < b < |c| ensures c[a].id < c[b].id {
      assert c[a] == ds[req.page * req.size + a] && c[b] == ds[req.page * req.size + b];
    }
  }

  /**
   * getAllTasks: one page of the task listing. It counts every stored task and holds the
   * `size` entries of the ascending-id listing that start at `page * size`, cut at the end;
   * so it is full while enough tasks remain, empty past the end, holds no task twice, and
   * each entry is a stored task as returned to clients.
   */
  function GetAllTasks(db: Database, req: PageRequest): (p: Page<TaskDto>)
    reads db
    requires db.Valid() && req.size >= 1
    ensures p.totalElements == |db.tasks| && p.number == req.page && p.size == req.size
    ensures |p.content| <= req.size
    ensures p == PageOf(AllTaskDtos(db), req)
    ensures req.page * req.size + req.size <= |db.tasks| ==> |p.content| == req.size
    ensures req.page * req.size < |db.tasks| <= req.page * req.size + req.size ==>
              |p.content| == |db.tasks| - req.page * req.size
    ensures |db.tasks| <= req.page * req.size ==> p.content == []
    ensures forall a, b :: 0 <= a < b < |p.content| ==> p.content[a].id < p.content[b].id
    ensures forall d :: d in p.content ==> d.id in db.tasks && d == ToDto(db.tasks[d.id])
  {
    var ds := AllTaskDtos(db);
    AllTaskDtosListsEachTask(db);
    AllTaskDtosAscending(db);
    PageHoldsListedItems(ds, req);
    PageKeepsAscendingIds(ds, req);
    PageOf(ds, req)
  }

  /**
   * updateTask: the request's fields replace the stored task's, the id is kept and the
   * version is the flushed one; one "updated" notification names the request's title.
   * An unknown task or assigned user is not found, and a save that loses the optimistic
   * lock (`saveConflicts`) is a conflict; on all three the transaction rolls back.
   */
  method UpdateTask(db: Database, id: int, dto: TaskRequestDto, saveConflicts: bool)
      returns (r: Result<TaskDto>)
    requires db.Valid() && TaskRequestComplete(dto)
    modifies db
    ensures db.Valid()
    ensures id !in old(db.tasks) ==> r == Err(ResourceNotFound(AppConstants.TASK_NOT_FOUND + IntToString(id)))
    ensures id in old(db.tasks) && dto.assignedUserId.value !in old(db.users) ==>
              r == Err(ResourceNotFound(AppConstants.USER_NOT_FOUND + IntToString(dto.assignedUserId.value)))
    ensures id in old(db.tasks) && dto.assignedUserId.value in old(db.users) && saveConflicts ==>
              r == Err(Conflict(AppConstants.CONFLICT_EXCEPTION))
    ensures r.Ok? <==> id in old(db.tasks) && dto.assignedUserId.value in old(db.users) && !saveConflicts
    ensures r.Err? ==> unchanged(db)
    ensures r.Ok? ==>
              && id in db.tasks
              && db.tasks == old(db.tasks)[id := db.tasks[id]]
              && CarriesRequest(db.tasks[id], dto)
              && db.tasks[id].id == id
              && db.tasks[id].version == FlushedVersion(old(db.tasks[id]), db.tasks[id])
              && db.notifications == old(db.notifications) + [AppConstants.UPDATED_PREFIX + dto.title.value]
              && r.value == ToDto(db.tasks[id])
    ensures db.users == old(db.users) && db.comments == old(db.comments)
    ensures db.nextUserId == old(db.nextUserId) && db.nextTaskId == old(db.nextTaskId)
    ensures db.nextCommentId == old(db.nextCommentId)
  {
    if id !in db.tasks {
      return Err(ResourceNotFound(AppConstants.TASK_NOT_FOUND + IntToString(id)));
    }
    var loaded := db.tasks[id];
    var task := loaded;
    task := task.(title := dto.title.value);
    task := task.(description := dto.description);
    task := task.(targetDate := dto.targetDate.value);
    task := task.(status := dto.status.value);
    task := task.(priority := dto.priority.value);
    var userId := dto.assignedUserId.value;
    if userId !in db.users {
      return Err(ResourceNotFound(AppConstants.USER_NOT_FOUND + IntToString(userId)));
    }
    task := task.(assignee := Some(userId));
    if saveConflicts {
      return Err(Conflict(AppConstants.CONFLICT_EXCEPTION));
    }
    task := task.(version := FlushedVersion(loaded, task));
    db.tasks := db.tasks[id := task];
    db.notifications := db.notifications + [AppConstants.UPDATED_PREFIX + dto.title.value];
    r := Ok(ToDto(task));
  }

  /** An update always leaves a version at least the loaded one, and one more whenever the
      request changes any field. */
  lemma UpdateNeverLowersVersion(before: Task, after: Task)
    ensures before.version <= FlushedVersion(before, after) <= before.version + 1
    ensures before.title != after.title ==> FlushedVersion(before, after) == before.version + 1
  {
    if before.title != after.title {
      assert before.(version := 0).title != after.(version := 0).title;
    }
  }

  /** The stored assigned user of a task; an assignee no longer stored reads as none. */
  function AssignedUser(users: map<int, User>, t: Task): (u: Option<User>)
    ensures u.Some? <==> t.assignee.Some? && t.assignee.value in users
    ensures u.Some? ==> u.value == users[t.assignee.value]
  {
    if t.assignee.Some? && t.assignee.value in users then Some(users[t.assignee.value]) else None
  }

  /** The comments that survive deleting task `taskId`: all comments of other tasks. */
  function CascadeDelete(comments: map<int, Comment>, taskId: int): (rest: map<int, Comment>)
    ensures forall c :: c in rest <==> c in comments && comments[c].taskId != taskId
    ensures CommentsKept(comments, rest)
  {
    map c | c in comments && comments[c].taskId != taskId :: comments[c]
  }

  /**
   * deleteTask: an unknown task is not found; a task with no stored assignee, or whose
   * assignee's roles are null or only ROLE_USER, is refused and kept. Otherwise exactly that
   * task and its comments are removed and one "deleted" notification names its title.
   */
  method DeleteTask(db: Database, id: int) returns (r: Result<()>)
    requires db.Valid()
    modifies db
    ensures db.Valid()
    ensures id !in old(db.tasks) ==> r == Err(ResourceNotFound(AppConstants.TASK_NOT_FOUND + IntToString(id)))
    ensures id in old(db.tasks) && AssignedUser(old(db.users), old(db.tasks[id])).None? ==>
              r == Err(AccessDenied(AppConstants.UNASSIGNED_TASK_DELETE))
    ensures id in old(db.tasks) && AssignedUser(old(db.users), old(db.tasks[id])).Some?
            && IsNotAdminRole(AssignedUser(old(db.users), old(db.tasks[id])).value.roles) ==>
              r == Err(AccessDenied(AppConstants.ACCESS_DENIED))
    ensures r.Ok? <==> && id in old(db.tasks)
                       && AssignedUser(old(db.users), old(db.tasks[id])).Some?
                       && !IsNotAdminRole(AssignedUser(old(db.users), old(db.tasks[id])).value.roles)
    ensures r.Err? ==> unchanged(db)
    ensures r.Ok? ==>
              && db.tasks == old(db.tasks) - {id}
              && db.comments == CascadeDelete(old(db.comments), id)
              && db.notifications == old(db.notifications) + [AppConstants.DELETED_PREFIX + old(db.tasks[id].title)]
    ensures db.users == old(db.users)
    ensures db.nextUserId == old(db.nextUserId) && db.nextTaskId == old(db.nextTaskId)
    ensures db.nextCommentId == old(db.nextCommentId)
  {
    if id !in db.tasks {
      return Err(ResourceNotFound(AppConstants.TASK_NOT_FOUND + IntToString(id)));
    }
    var task := db.tasks[id];
    var holder := AssignedUser(db.users, task);
    if holder.None? {
      return Err(AccessDenied(AppConstants.UNASSIGNED_TASK_DELETE));
    }
    var roles := holder.value.roles;
    if roles.None? || (|roles.value| == 1 && ROLE_USER in roles.value) {
      return Err(AccessDenied(AppConstants.ACCESS_DENIED));
    }
    db.comments := CascadeDelete(db.comments, id);
    db.tasks := db.tasks - {id};
    db.notifications := db.notifications + [AppConstants.DELETED_PREFIX + task.title];
    r := Ok(());
  }

  /** After the cascade no stored comment belongs to the deleted task. */
  lemma CascadeLeavesNoComment(comments: map<int, Comment>, taskId: int)
    ensures forall c :: c in CascadeDelete(comments, taskId) ==> CascadeDelete(comments, taskId)[c].taskId != taskId
  {
  }
}
