# KLM task management: a Dafny model of the business layer

The system is a Spring Boot REST service in which users register, log in, manage tasks
and comment on tasks. Each change to a task is announced on the `/topic/updates` WebSocket
topic. This project models the layer under the HTTP and persistence plumbing:

- **Stores and services.** One `Repositories.Database` object holds the three tables
  (users, tasks, comments; key → record), the next key of each IDENTITY column and the log
  of messages published to `/topic/updates`. The user, task and comment services are
  methods that update that object in place (`modifies db`). Read-only operations are
  functions that `reads db`. Every service method and every endpoint states its complete
  new state: which table changed and how, and that the others are kept. The task and
  comment services are transactional; the user service raises every failure before it
  writes. So a failing call leaves the tables as they were. The one exception is
  the notification log: task creation publishes before it saves, so a rejected save
  leaves its "created" notification sent.
- **Failures.** An exception is a value of `Errors.Failure`:
  - not found, conflict and access denied (raised by a service);
  - authorization denied (a `@PreAuthorize` rule that did not hold);
  - username not found and bad credentials;
  - invalid arguments with their field errors;
  - internal (any other exception).

  An operation yields `Result<T>`.
- **Request validation.** The bean-validation constraints of the four request records are
  predicates over nullable fields. Each violated constraint yields one field error with the
  annotation's message (`TaskDtos`, `UserDtos`).
- **Method security.** Every `@PreAuthorize` expression is a predicate over the caller
  (`Authorization.Permits`). The ownership check behind comment deletion is
  `CommentSecurity.IsCommentAuthor`.
- **Bearer filter.** `JwtFilter.JwtAuthenticateFilter` is a class whose fields are the
  security context's authentication and the number of times the rest of the chain ran.
- **Exception handler.** The error envelopes are `GlobalExceptionHandler.Handle`. The
  field → message map of a validation failure is built in a loop by `HandleValidation`.
- **Endpoints.** Each endpoint (`UserController`, `TaskController`, `CommentController`)
  validates first, then applies its security rule, calls the service once and wraps the
  result in an `ApiResponse` envelope. Access-denied exceptions are not turned into an
  envelope: they are propagated to the security layer as `Reply.Propagate`. A reply's
  status is the envelope's `status` field. An error envelope also sets the HTTP status,
  but a successful handler returns the bare envelope, so its HTTP status stays 200 even
  when the envelope says 201.
- **Notification echo.** `Notifications.Broadcast` puts the bell prefix in front of the
  incoming message.

Several behaviours follow the code rather than its comments:

- Registration gives the new user the role set {ROLE_ADMIN}.
- Role update refuses a target whose roles are null or exactly {ROLE_USER}.
- Comment deletion is permitted to a ROLE_USER holder or to the comment's author. An
  administrator who is neither is refused.

Passing to the model as parameters: the clock (`today`, `now`), the password encoder and
matcher, the email-format check, the JWT validation and subject extraction, the token
issuer, the request details, whether a save lost the optimistic lock (`saveConflicts`),
and whether the persistence layer rejects a new task's insert (`saveFails`).

## Model

| member | source | states |
|---|---|---|
| ApiResponses.Success | src/main/java/com/klm/taskmanagement/global/response/ApiResponse.java:32-34 | status 200; message and data passed through unchanged |
| ApiResponses.Created | src/main/java/com/klm/taskmanagement/global/response/ApiResponse.java:43-45 | status 201; message and data passed through unchanged |
| ApiResponses.Error | src/main/java/com/klm/taskmanagement/global/response/ApiResponse.java:55-57 | exactly the given status, message and data |
| Constraints.Check | src/main/java/com/klm/taskmanagement/task/dto/TaskRequestDto.java:28-43 | one constraint reports no error iff it holds, otherwise errors naming only its field and message |
| TaskDtos.TitleViolations | src/main/java/com/klm/taskmanagement/task/dto/TaskRequestDto.java:28-30 | no title error iff the title is not blank and at most 100 characters; a title over 100 characters reports the size message |
| TaskDtos.DetailViolations | src/main/java/com/klm/taskmanagement/task/dto/TaskRequestDto.java:31-38 | no error iff the description (when present) is at most 500 characters and status and priority are present |
| TaskDtos.ScheduleViolations | src/main/java/com/klm/taskmanagement/task/dto/TaskRequestDto.java:40-43 | no error iff the target date is present and not before today and the assigned user id is present |
| TaskDtos.TaskRequestViolations | src/main/java/com/klm/taskmanagement/task/dto/TaskRequestDto.java:24-46 | the request has no field error iff every constraint holds; every error names one of the six fields |
| TaskDtos.ValidTaskRequestIsComplete | src/main/java/com/klm/taskmanagement/task/dto/TaskRequestDto.java:34-43 | a valid request has every field the service dereferences |
| TaskDtos.CommentRequestViolations | src/main/java/com/klm/taskmanagement/task/dto/CommentRequestDto.java:14-24 | no error iff the content is not blank and at most 300 characters and task and author ids are present |
| UserDtos.PasswordViolations | src/main/java/com/klm/taskmanagement/user/dto/RegisterDto.java:29-30 | no password error iff it is not blank and at least 6 characters |
| UserDtos.EmailViolations | src/main/java/com/klm/taskmanagement/user/dto/RegisterDto.java:31-33 | no email error iff it is not blank and passes the format check, which like @Email accepts the empty string; the empty string reports only "Email is required" |
| UserDtos.RegisterViolations | src/main/java/com/klm/taskmanagement/user/dto/RegisterDto.java:28-34 | no error iff all registration constraints hold; a valid body has all three fields and a password of at least 6 characters |
| UserDtos.LoginViolations | src/main/java/com/klm/taskmanagement/user/dto/LoginDto.java:24 | no error iff username and password are both non-blank |
| UserDtos.LoginHasNoMinimumLength | src/main/java/com/klm/taskmanagement/user/dto/LoginDto.java:24 | for every non-blank name and every non-blank password under six characters: login validation passes, registration validation fails whatever the email, with only the size message for the password |
| Text.BlankIffTrimsToEmpty | src/main/java/com/klm/taskmanagement/user/dto/RegisterDto.java:28 | the blank test @NotBlank applies is Java's: a string is blank iff `trim()` leaves nothing |
| Entities.RoleName | src/main/java/com/klm/taskmanagement/security/UserInfoDetails.java:52 | a role's name is its constant name, prefixed "ROLE_" |
| Entities.RoleNameInjective | src/main/java/com/klm/taskmanagement/user/service/UserServiceImpl.java:179-184 | distinct roles have distinct names |
| Entities.RoleNames | src/main/java/com/klm/taskmanagement/user/service/UserServiceImpl.java:179-184 | a name is in the collected set iff it is the name of some role of the set |
| Entities.RoleNamesCount | src/main/java/com/klm/taskmanagement/user/service/UserServiceImpl.java:179-184 | collecting the names loses no role: as many names as roles |
| Entities.IsNotAdminRole | src/main/java/com/klm/taskmanagement/user/service/UserServiceImpl.java:167-174 | the size-and-membership guard holds iff the roles are null or exactly {ROLE_USER} |
| Entities.AdminPassesGuard | src/main/java/com/klm/taskmanagement/user/service/UserServiceImpl.java:167-174 | a role set holding ROLE_ADMIN never trips the guard |
| Entities.NewTask | src/main/java/com/klm/taskmanagement/task/entity/Task.java:45-79 | a new task has status TODO, priority MEDIUM, version 0, no assignee and no description |
| GlobalExceptionHandler.ErrorMapLastWins | src/main/java/com/klm/taskmanagement/global/exception/GlobalExceptionHandler.java:70-73 | a field is in the map iff some error names it, and its message is the one of the last error naming it |
| GlobalExceptionHandler.HandleValidation | src/main/java/com/klm/taskmanagement/global/exception/GlobalExceptionHandler.java:68-77 | the put-per-error loop answers 400 "Validation failed" with exactly that map |
| GlobalExceptionHandler.Handle | src/main/java/com/klm/taskmanagement/global/exception/GlobalExceptionHandler.java:54-131 | the handler for each failure: 404/message, 400/field map, 409/message, 401/fixed message, 500/"Internal Server Error"; exactly the access and authorization denials are rethrown |
| Web.FailureReply | src/main/java/com/klm/taskmanagement/global/exception/GlobalExceptionHandler.java:93-103 | a controller's reply to a failure is propagated iff the handler rethrows it, else the handler's status and message; data is present iff the failure is a validation failure |
| Web.DeniedIsRethrown | src/main/java/com/klm/taskmanagement/global/exception/GlobalExceptionHandler.java:96-98 | a denied security rule reaches the security layer unchanged |
| JwtFilter.BearerToken | src/main/java/com/klm/taskmanagement/security/JwtAuthenticateFilter.java:41-45 | a token is found iff the header is present and starts with "Bearer "; the header is the prefix followed by the token |
| JwtFilter.BearerTokenRoundTrip | src/main/java/com/klm/taskmanagement/security/JwtAuthenticateFilter.java:43-45 | the token found in "Bearer " + t is t |
| JwtFilter.Authenticate | src/main/java/com/klm/taskmanagement/security/JwtAuthenticateFilter.java:43-58 | the context is kept iff there is no bearer token or the validator rejects it; for a valid token, a failing lookup fails with the lookup's failure, a user with null roles fails as a null dereference, and any other loaded user is bound with the names of its roles and the request details; a binding is the stored user named by the token's subject |
| JwtFilter.JwtAuthenticateFilter.constructor | src/main/java/com/klm/taskmanagement/security/JwtAuthenticateFilter.java:29-32 | a new filter sees an empty context and has not run the chain |
| JwtFilter.JwtAuthenticateFilter.DoFilterInternal | src/main/java/com/klm/taskmanagement/security/JwtAuthenticateFilter.java:34-63 | keeps or binds the context as decided and then runs the chain exactly once; a failing lookup propagates before the chain with the context untouched |
| Notifications.Rendered | src/main/java/com/klm/taskmanagement/websocket/NotificationController.java:28 | a null string concatenates as "null", any other string as itself |
| Notifications.Broadcast | src/main/java/com/klm/taskmanagement/websocket/NotificationController.java:25-29 | the output starts with the bell prefix, ends with the incoming message unchanged, and is two characters longer |
| Notifications.BroadcastInjective | src/main/java/com/klm/taskmanagement/websocket/NotificationController.java:28 | distinct non-null messages give distinct broadcasts |
| Notifications.NullMessageLooksLikeText | src/main/java/com/klm/taskmanagement/websocket/NotificationController.java:28 | a null message and the text "null" are broadcast alike |
| Notifications.Notify | src/main/java/com/klm/taskmanagement/websocket/NotificationController.java:25-29 | the broadcast is appended to the topic log and nothing else changes |
| Repositories.Database.constructor | src/main/java/com/klm/taskmanagement/task/entity/Task.java:30-32 | empty tables, an empty log, and every key counter at 1 |
| Repositories.OrderedIds | src/main/java/com/klm/taskmanagement/user/service/UserServiceImpl.java:140-142 | the listing order: an id is listed iff it is a key in range, and ids strictly increase |
| Repositories.OrderedIdsCoverKeys | src/main/java/com/klm/taskmanagement/user/service/UserServiceImpl.java:140-142 | a valid table lists exactly its keys, each once |
| Repositories.PageRequestOf | src/main/java/com/klm/taskmanagement/task/controller/TaskController.java:69 | a page request exists iff page >= 0 and size >= 1; otherwise the argument error for the index or for the size |
| Repositories.PageOf | src/main/java/com/klm/taskmanagement/task/service/TaskServiceImpl.java:96-101 | positions page*size onward of the listing, at most size of them, full when the listing allows, empty past the end, with the listing's total |
| Repositories.PageHoldsListedItems | src/main/java/com/klm/taskmanagement/task/service/TaskServiceImpl.java:96-101 | a page holds only items of the listing it was cut from |
| Security.GetPassword | src/main/java/com/klm/taskmanagement/security/UserInfoDetails.java:39-42 | the wrapped user's stored encoded password |
| Security.GetUsername | src/main/java/com/klm/taskmanagement/security/UserInfoDetails.java:60-63 | the wrapped user's username |
| Security.GetDetailRoles | src/main/java/com/klm/taskmanagement/security/UserInfoDetails.java:105-107 | the wrapped user's role set, null included |
| Security.GetAuthorities | src/main/java/com/klm/taskmanagement/security/UserInfoDetails.java:50-54 | one authority per role, named by the role; a null role set fails |
| Security.LoadUserByUsername | src/main/java/com/klm/taskmanagement/security/UserInfoService.java:23-29 | succeeds iff exactly one stored user has the name, and returns that user; "User not found" iff none has it; several matches fail as internal |
| CommentSecurity.IsCommentAuthor | src/main/java/com/klm/taskmanagement/config/CommentSecurityConfig.java:27-33 | true iff the comment is stored and its stored author's username equals the name exactly; false for a missing comment |
| Authorization.CallerOf | src/main/java/com/klm/taskmanagement/security/JwtAuthenticateFilter.java:52-58 | an empty context is the anonymous caller; a bound one is the principal's name with the bound authorities |
| Authorization.HasRoleIsMembership | src/main/java/com/klm/taskmanagement/user/controller/UserController.java:74 | hasRole('USER') / hasRole('ADMIN') hold iff the authority ROLE_USER / ROLE_ADMIN is held |
| Authorization.AnonymousHoldsNoRole | src/main/java/com/klm/taskmanagement/user/controller/UserController.java:87 | the anonymous caller holds neither role |
| Authorization.DeleteCommentRule | src/main/java/com/klm/taskmanagement/task/controller/CommentController.java:62-63 | comment deletion is permitted iff the caller holds ROLE_USER or is the stored comment's author |
| Authorization.AdminAloneCannotDeleteOthersComment | src/main/java/com/klm/taskmanagement/task/controller/CommentController.java:63 | a caller holding only ROLE_ADMIN may not delete a comment it did not write |
| Authorization.PlainUserKeptFromAdminEndpoints | src/main/java/com/klm/taskmanagement/task/controller/TaskController.java:35-103 | a caller holding only ROLE_USER is refused the administrator endpoints and may create tasks |
| Authorization.Permits | src/main/java/com/klm/taskmanagement/user/controller/UserController.java:74-127 | the @PreAuthorize rule of each endpoint; registration and login always pass; an anonymous caller passes only those and the deletion of a comment authored by "anonymousUser" |
| Authorization.AdminPassesAllButCommentDeletion | src/main/java/com/klm/taskmanagement/task/controller/CommentController.java:62-63 | a caller holding ROLE_ADMIN passes every rule except comment deletion |
| UserService.AuthAnswer | src/main/java/com/klm/taskmanagement/user/service/UserServiceImpl.java:72-73 | the answer carries the user's username and email, the role names, and the token issued for them |
| UserService.Register | src/main/java/com/klm/taskmanagement/user/service/UserServiceImpl.java:60-74 | conflict iff the username or the email is stored, with nothing written; otherwise exactly one user added under the next key, with the encoded password and roles {ROLE_ADMIN}, answered with role names {"ROLE_ADMIN"} |
| UserService.Login | src/main/java/com/klm/taskmanagement/user/service/UserServiceImpl.java:81-95 | success iff the name resolves, the password matches and the roles are set; an unknown name or a wrong password for a resolved name is bad credentials; a lookup's internal failure passes through; null roles fail; the answer is built from the stored user |
| UserService.LoginFindsRegisteredUser | src/main/java/com/klm/taskmanagement/user/service/UserServiceImpl.java:60-95 | a user stored as registration stores it, under a name no one else has, logs in with the raw password and gets the registration answer |
| UserService.RegisterThenLogin | src/main/java/com/klm/taskmanagement/user/service/UserServiceImpl.java:60-95 | logging in right after a successful registration, with the same name and password, succeeds with the answer registration gave |
| UserService.DeleteUser | src/main/java/com/klm/taskmanagement/user/service/UserServiceImpl.java:101-108 | not found for a missing id; refused with "ROLE_USER are not allowed to delete." and no change for null or {ROLE_USER} roles; otherwise only that user removed |
| UserService.ToUserResponse | src/main/java/com/klm/taskmanagement/user/service/UserServiceImpl.java:163-165 | id, username, email and roles copied; no password |
| UserService.GetUserById | src/main/java/com/klm/taskmanagement/user/service/UserServiceImpl.java:115-119 | read-only; the stored user's response iff the id is stored, else "User not found" |
| UserService.UpdateUser | src/main/java/com/klm/taskmanagement/user/service/UserServiceImpl.java:126-134 | not found for a missing id; otherwise only username and email replaced, password and roles kept, no uniqueness check |
| UserService.ResponsesOf | src/main/java/com/klm/taskmanagement/user/service/UserServiceImpl.java:141 | one response per listed id, each mapped from that id's user |
| UserService.ResponsesListEachUser | src/main/java/com/klm/taskmanagement/user/service/UserServiceImpl.java:140-142 | listing a table by ascending key yields each record's response exactly once, in ascending id |
| UserService.GetAllUsers | src/main/java/com/klm/taskmanagement/user/service/UserServiceImpl.java:140-142 | one response per stored user, each copied from that user, every user listed, in ascending id |
| UserService.NoUsersListNone | src/main/java/com/klm/taskmanagement/user/service/UserServiceImpl.java:140-142 | an empty store lists no users |
| UserService.UpdateUserRoles | src/main/java/com/klm/taskmanagement/user/service/UserServiceImpl.java:149-158 | not found for a missing id; refused and unchanged for null or {ROLE_USER} roles; otherwise the role set replaced wholesale and returned |
| TaskService.ToDto | src/main/java/com/klm/taskmanagement/task/service/TaskServiceImpl.java:61-71 | id, title, description, status, priority and target date copied |
| TaskService.CarriedRequestMeetsConstraints | src/main/java/com/klm/taskmanagement/task/entity/Task.java:36-71 | a task carrying a valid request has a non-blank title, a target date not before today and an assigned user |
| TaskService.FlushedVersion | src/main/java/com/klm/taskmanagement/task/entity/Task.java:78-79 | the version goes up by one when a persistent field changed and stays otherwise |
| TaskService.UpdateNeverLowersVersion | src/main/java/com/klm/taskmanagement/task/entity/Task.java:78-79 | the flushed version is the loaded one or one more, and one more whenever the title changes |
| TaskService.MapToEntity | src/main/java/com/klm/taskmanagement/task/service/TaskServiceImpl.java:159-169 | fails with "No user available for assigned user id " + id iff the user is not stored; otherwise the task carries all request fields and keeps its id and version |
| TaskService.CreateTask | src/main/java/com/klm/taskmanagement/task/service/TaskServiceImpl.java:44-53 | unknown assignee: not found, nothing stored, no notification; a rejected save: internal failure, no task stored, but the "created" notification already sent; otherwise one task stored under the next key carrying the request, version 0, and one "created" notification with the title |
| TaskService.GetTaskById | src/main/java/com/klm/taskmanagement/task/service/TaskServiceImpl.java:85-89 | read-only; the stored task iff present, else "Task not found with ID: " + id |
| TaskService.DtosOf | src/main/java/com/klm/taskmanagement/task/service/TaskServiceImpl.java:98-99 | one response per listed id, each mapped from that id's task |
| TaskService.DtosListEachTask | src/main/java/com/klm/taskmanagement/task/service/TaskServiceImpl.java:96-101 | listing a table by its keys contains every record's response and nothing else |
| TaskService.AllTaskDtosListsEachTask | src/main/java/com/klm/taskmanagement/task/service/TaskServiceImpl.java:96-101 | the full task listing has one entry per stored task, each a stored task's response |
| TaskService.AllTaskDtosAscending | src/main/java/com/klm/taskmanagement/task/service/TaskServiceImpl.java:96-101 | the full task listing is in strictly ascending id order, so no task is listed twice |
| TaskService.PageKeepsAscendingIds | src/main/java/com/klm/taskmanagement/task/service/TaskServiceImpl.java:96-101 | a page cut from an ascending-id listing keeps ascending id order |
| TaskService.GetAllTasks | src/main/java/com/klm/taskmanagement/task/service/TaskServiceImpl.java:96-101 | the page is exactly the page*size slice of the ascending-id listing of all stored tasks, cut at the end: it counts all stored tasks, holds at most size of them, is full while enough remain, holds exactly the remainder on the last partial page, is empty past the end, is in strictly ascending id order (no task twice) and holds only stored tasks' responses |
| TaskService.UpdateTask | src/main/java/com/klm/taskmanagement/task/service/TaskServiceImpl.java:104-129 | not found for the task, then for the user, then conflict on a lost lock, each with no change and no notification; otherwise the request's fields replace the task's, id kept, version flushed, one "updated" notification |
| TaskService.AssignedUser | src/main/java/com/klm/taskmanagement/task/service/TaskServiceImpl.java:135 | the task's stored assignee, none when unassigned |
| TaskService.CascadeDelete | src/main/java/com/klm/taskmanagement/task/entity/Task.java:76-77 | exactly the comments of other tasks survive, unchanged |
| TaskService.CascadeLeavesNoComment | src/main/java/com/klm/taskmanagement/task/entity/Task.java:76-77 | no surviving comment belongs to the deleted task |
| TaskService.DeleteTask | src/main/java/com/klm/taskmanagement/task/service/TaskServiceImpl.java:132-151 | not found; refused when unassigned; refused when the assignee's roles are null or {ROLE_USER}; each with no change. Otherwise only that task and its comments removed, one "deleted" notification with its title |
| CommentService.MapToDto | src/main/java/com/klm/taskmanagement/task/service/CommentServiceImpl.java:93-101 | id, content, creation time, task id and author id copied |
| CommentService.CreateComment | src/main/java/com/klm/taskmanagement/task/service/CommentServiceImpl.java:35-51 | "Task not found" first, then "Author not found", with nothing stored; otherwise one comment stored under the next key with the content, task, author and time now; stored comments kept |
| CommentService.IdsOnTask | src/main/java/com/klm/taskmanagement/task/service/CommentServiceImpl.java:59 | an id is kept iff it is listed and its comment belongs to the task; an ascending input stays ascending |
| CommentService.CommentDtosOf | src/main/java/com/klm/taskmanagement/task/service/CommentServiceImpl.java:59-60 | one response per listed id, each mapped from that id's comment |
| CommentService.CommentsOnTask | src/main/java/com/klm/taskmanagement/task/service/CommentServiceImpl.java:57-61 | the per-task listing holds exactly the stored comments of that task, in strictly ascending id order, so none twice |
| CommentService.IdsOf | src/main/java/com/klm/taskmanagement/task/service/CommentServiceImpl.java:57-61 | the set of ids of a comment listing: an id is in it iff some entry carries it |
| CommentService.AscendingIdsCount | src/main/java/com/klm/taskmanagement/task/service/CommentServiceImpl.java:57-61 | a listing in strictly ascending id order has as many ids as entries |
| CommentService.ListedIdsAreTaskCommentIds | src/main/java/com/klm/taskmanagement/task/service/CommentServiceImpl.java:57-61 | a listing holding exactly a task's stored comments carries exactly their keys |
| CommentService.CommentsOnTaskCount | src/main/java/com/klm/taskmanagement/task/service/CommentServiceImpl.java:57-61 | the per-task listing has one entry per stored comment of the task |
| CommentService.GetCommentsByTaskId | src/main/java/com/klm/taskmanagement/task/service/CommentServiceImpl.java:57-61 | rejected iff page < 0 or size < 1, with the page request's error; otherwise exactly that page of the task's listing: at most size comments, and a total equal to the number of the task's stored comments |
| CommentService.PagedCommentsBelongToTask | src/main/java/com/klm/taskmanagement/task/service/CommentServiceImpl.java:57-61 | every comment on a page belongs to the requested task and is the stored one |
| CommentService.DeleteComment | src/main/java/com/klm/taskmanagement/task/service/CommentServiceImpl.java:67-75 | "Comment not found" and no change iff missing; otherwise exactly that comment removed |
| CommentService.GetCommentById | src/main/java/com/klm/taskmanagement/task/service/CommentServiceImpl.java:81-85 | read-only; the stored comment iff present, else "Comment not found" |
| UserController.RegisterEndpoint | src/main/java/com/klm/taskmanagement/user/controller/UserController.java:48-52 | invalid body: 400 with the field map and no change; taken name or email: 409 and no change; otherwise one user stored under the next key with the encoded password and roles {ROLE_ADMIN}, and envelope status 201 "User registered successfully" with that user's answer; the other tables are kept |
| UserController.LoginEndpoint | src/main/java/com/klm/taskmanagement/user/controller/UserController.java:59-65 | invalid body: 400; a successful login: 200 "Login successfully" with its answer, and only then; any failed login: exactly the handler's reply to Login's failure, so an unknown name or a wrong password is 401 "Invalid username or password", and several users of that name or a matched user with null roles is 500 "Internal Server Error" |
| UserController.UpdateUserRolesEndpoint | src/main/java/com/klm/taskmanagement/user/controller/UserController.java:73-79 | ROLE_ADMIN only; 404 for a missing user; refusal propagated; otherwise roles replaced and 200 "user role has been updated"; anything but 200 changes nothing; tasks, comments, log and counters always kept |
| UserController.GetAllUsersEndpoint | src/main/java/com/klm/taskmanagement/user/controller/UserController.java:86-91 | any authenticated caller; 200 "Fetch user successfully" with one entry per stored user |
| UserController.GetUserEndpoint | src/main/java/com/klm/taskmanagement/user/controller/UserController.java:98-103 | any authenticated caller; 404 "User not found" or 200 with that user |
| UserController.UpdateUserEndpoint | src/main/java/com/klm/taskmanagement/user/controller/UserController.java:112-118 | full registration body validated first; ROLE_USER or ROLE_ADMIN; 404 with no change, or name and email replaced with 200 "User updated successfully"; the other tables and counters always kept |
| UserController.DeleteUserEndpoint | src/main/java/com/klm/taskmanagement/user/controller/UserController.java:126-131 | ROLE_ADMIN only; 404; refusal propagated; otherwise the user removed and 200 "User deleted successfully" with null data; the other tables and counters always kept |
| TaskController.CreateTaskEndpoint | src/main/java/com/klm/taskmanagement/task/controller/TaskController.java:35-40 | invalid body: 400; ROLE_USER or ROLE_ADMIN; 404 for an unknown assignee with no change; 500 for a rejected save, with the notification sent; otherwise one task under the next key carrying the request, version 0, meeting the entity constraints, one "created" notification and envelope status 201 "Task created successfully"; users and comments always kept |
| TaskController.GetTaskEndpoint | src/main/java/com/klm/taskmanagement/task/controller/TaskController.java:48-53 | ROLE_USER or ROLE_ADMIN; 404 with the id or 200 "Fetch task successfully" with the task |
| TaskController.GetAllTasksEndpoint | src/main/java/com/klm/taskmanagement/task/controller/TaskController.java:63-71 | ROLE_ADMIN only; 200 iff page >= 0 and size >= 1 after defaults, with that page; otherwise 500 |
| TaskController.DefaultListingIsFirstTen | src/main/java/com/klm/taskmanagement/task/controller/TaskController.java:63-69 | without parameters the listing is page 0 of size 10 |
| TaskController.UpdateTaskEndpoint | src/main/java/com/klm/taskmanagement/task/controller/TaskController.java:80-88 | invalid body: 400; ROLE_USER or ROLE_ADMIN; 404 for the task, 404 for the user, 409 on a lost lock; otherwise only that task replaced by the request's fields, id kept, version flushed, one "updated" notification and 200 "Task updated successfully"; anything but 200 changes nothing |
| TaskController.DeleteTaskEndpoint | src/main/java/com/klm/taskmanagement/task/controller/TaskController.java:98-103 | ROLE_ADMIN only; 404; refusals propagated; an assignee passing the guard: 200 "Task deleted successfully", the task removed, exactly the comments of other tasks kept, one "deleted" notification; anything else changes nothing |
| CommentController.CreateCommentEndpoint | src/main/java/com/klm/taskmanagement/task/controller/CommentController.java:29-36 | invalid body: 400; authenticated only; 404 "Task not found" then "Author not found"; otherwise one comment under the next key with the request's content, task and author, created now, and envelope status 201 "Comment created successfully"; the other tables always kept |
| CommentController.GetCommentsByTaskEndpoint | src/main/java/com/klm/taskmanagement/task/controller/CommentController.java:46-55 | authenticated only; defaults 0 and 10; 200 "Fetch Comment successfully" with the page, or 500 for a bad page request |
| CommentController.DeleteCommentEndpoint | src/main/java/com/klm/taskmanagement/task/controller/CommentController.java:62-67 | denied unless the deletion rule holds; 404 "Comment not found"; otherwise the comment removed and 200 "Comment deleted successfully"; users, tasks, log and counters always kept |

## Left out

- Token signing and checking, and password hashing: the JWT library and BCrypt are abstract
  functions passed as parameters (`validateToken`, `usernameFromToken`, `issue`, `encode`,
  `matches`).
- URL-level security rules, the 401 and 403 JSON writers, WebSocket broker wiring and
  STOMP delivery, OpenAPI and application bootstrap: framework configuration and response
  I/O. Publishing to `/topic/updates` is an append to `Database.notifications`.
- The URL-level rule for `/api/comments/**`: it requires an authenticated request before
  method security runs, so an anonymous caller never reaches comment deletion there.
  `Authorization.Permits` states only the method-level rule.
- Logging, and the `Instant.now()` timestamp of every envelope.
- Repository and mapper internals: the tables are maps. `findAll` without a sort is
  modelled as ascending id order, which the database does not promise.
- Foreign keys: a task's assignee or a comment's author that is no longer stored reads as
  absent. A user delete that the database would refuse because of referencing rows is not
  modelled.
- Entities are values, not managed objects. The fetched entity the setters change is a
  local copy written back on success, so aliasing between loaded entities is not
  captured.
- The real `@Email` regular expression: it is the abstract predicate `isEmail`.
- String lengths: Dafny characters are code points, while Java counts UTF-16 units. For
  characters outside the Basic Multilingual Plane (the bell emoji among them), the
  `@Size` limits and the broadcast length differ from Java's.
- Notifications.Broadcast: states the length in code points (prefix of 2), not Java's
  UTF-16 length (prefix of 3).
- TaskService.UpdateTask: the optimistic-lock race itself is not modelled. A lost save is
  the input `saveConflicts`, which models the `catch` at TaskServiceImpl.java:124-126 as
  written. In the source that branch is practically unreachable: `save` on an entity the
  transaction already manages merges without flushing, so a lost lock surfaces at commit,
  after the method has returned and after the "updated" notification was sent. It is then
  not a ConflictException, and the client gets 500 rather than 409. More generally, the
  model does not capture any write the database refuses at commit. One case is a
  validated request whose description has 256 to 500 characters. The request record
  allows 500 (`@Size(max = 500)`), but the generated `description` column holds 255. In
  the source that update answers 500 after the "updated" notification was sent, and
  the stored task is unchanged. The model stores the update and answers 200. The same holds
  for `TaskController.UpdateTaskEndpoint`.
- TaskService.FlushedVersion: the version goes up by one only when some field actually
  changed, as Hibernate's dirty check does. An update that writes identical values keeps
  the version.
- The login call's write of the authentication into the security context, and the
  framework's password-matching internals beyond the abstract `matches`.
- CommentService.CreateComment: the creation time is set by the setter and again by the
  persist hook. Both read the clock, and the model uses one instant `now` for both.
- Services require the request fields that validation guarantees (`TaskRequestComplete`,
  `RegisterComplete`, `CommentRequestComplete`). The controllers, which validate first,
  are the only callers.
- Spring `Page` metadata beyond number, size, total elements and content.
- The order of field errors. Hibernate reports a body's violations in an unspecified
  order, and the handler's map keeps the message put last. The model reports them in
  annotation order, so when two constraints fail on one field (a blank password is both
  blank and too short) the message it picks is one of the two, not necessarily Java's.
- TaskService.UpdateNeverLowersVersion: the version is an unbounded integer. Java's `int`
  wraps from 2^31 - 1 to -2^31, so at that edge the source does lower the version.
- TaskService.CreateTask: the reasons an insert is rejected (the entity's own
  `@NotBlank`/`@FutureOrPresent` checked again at persist, a description longer than the
  generated column) are the abstract input `saveFails`. An identity value a failed insert
  may consume is not modelled: the key counter is kept.
