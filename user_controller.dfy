/**
 * The /api/auth endpoints: request validation, then the method-security rule, then one call
 * into the user service, wrapped in an envelope.
 */
module UserController {
  import opened Wrappers
  import opened Entities
  import opened Errors
  import opened ApiResponses
  import opened Repositories
  import opened UserDtos
  import opened Web
  import opened Security
  import Authorization
  import UserService
  import AppConstants

  /** POST /register: validated, open to everyone, answered with envelope status 201. */
  method RegisterEndpoint(db: Database, dto: RegisterDto, isEmail: string -> bool,
                          encode: string -> string, issue: (string, set<string>) -> string)
      returns (reply: Reply)
    requires db.Valid()
    modifies db
    ensures db.Valid()
    ensures RegisterViolations(dto, isEmail) != [] ==>
              reply == FailureReply(ArgumentNotValid(RegisterViolations(dto, isEmail))) && unchanged(db)
    ensures RegisterViolations(dto, isEmail) == [] ==>
              if old(UserService.UsernameTaken(db, dto.userName.value)) || old(UserService.EmailTaken(db, dto.email.value))
              then reply == FailureReply(Conflict(AppConstants.USERNAME_EMAIL_EXISTS)) && unchanged(db)
              else var id := old(db.nextUserId);
                   var u := User(id, dto.userName.value, dto.email.value, encode(dto.password.value), Some({ROLE_ADMIN}));
                   && id !in old(db.users)
                   && db.users == old(db.users)[id := u]
                   && db.nextUserId == id + 1
                   && reply == Answer(Created(AppConstants.USER_REGISTER,
                                              Some(AuthData(UserService.AuthAnswer(u, {ROLE_ADMIN}, issue)))))
                   && reply.response.data.value.auth.roles == {"ROLE_ADMIN"}
    ensures db.tasks == old(db.tasks) && db.comments == old(db.comments) && db.notifications == old(db.notifications)
    ensures db.nextTaskId == old(db.nextTaskId) && db.nextCommentId == old(db.nextCommentId)
  {
    var errs := RegisterViolations(dto, isEmail);
    if errs != [] {
      return FailureReply(ArgumentNotValid(errs));
    }
    var r := UserService.Register(db, dto, encode, issue);
    reply := CreatedReply(AppConstants.USER_REGISTER, MapResult(r, (a: AuthResponse) => AuthData(a)));
  }

  /**
   * POST /login: validated, open to everyone, answered 200 on success. Bad credentials are
   * 401; a lookup that finds several users of that name, or a matched user with no role
   * set, is an internal error answered 500.
   */
  function LoginEndpoint(db: Database, dto: LoginDto, matches: (string, string) -> bool,
                         issue: (string, set<string>) -> string): (reply: Reply)
    reads db
    requires db.Valid()
    ensures LoginViolations(dto) != [] ==> reply == FailureReply(ArgumentNotValid(LoginViolations(dto)))
    ensures LoginViolations(dto) == [] && (forall id :: id in db.users ==> db.users[id].username != dto.username.value) ==>
              reply == Answer(Error(401, AppConstants.INVALID_CREDENTIALS, None))
    ensures reply.Answer? && reply.response.status == 200 ==>
              && LoginViolations(dto) == []
              && reply.response.message == AppConstants.USER_LOGIN
              && UserService.Login(db, dto, matches, issue).Ok?
              && reply.response.data == Some(AuthData(UserService.Login(db, dto, matches, issue).value))
    ensures reply.Answer? ==> reply.response.status in {200, 400, 401, 500}
    ensures LoginViolations(dto) == [] && UserService.Login(db, dto, matches, issue).Ok? ==>
              reply == Answer(Success(AppConstants.USER_LOGIN,
                                      Some(AuthData(UserService.Login(db, dto, matches, issue).value))))
    ensures LoginViolations(dto) == [] && UserService.Login(db, dto, matches, issue).Err? ==>
              reply == FailureReply(UserService.Login(db, dto, matches, issue).failure)
    ensures LoginViolations(dto) == [] && UserService.Login(db, dto, matches, issue).Err?
            && UserService.Login(db, dto, matches, issue).failure.Internal? ==>
              reply == Answer(Error(500, AppConstants.INTERNAL_SERVER_ERROR, None))
    ensures LoginViolations(dto) == [] && |UsersNamed(db.users, dto.username.value)| > 1 ==>
              reply == Answer(Error(500, AppConstants.INTERNAL_SERVER_ERROR, None))
    ensures LoginViolations(dto) == [] && LoadUserByUsername(db, dto.username.value).Ok?
            && !matches(dto.password.value, LoadUserByUsername(db, dto.username.value).value.user.password) ==>
              reply == Answer(Error(401, AppConstants.INVALID_CREDENTIALS, None))
  {
    var errs := LoginViolations(dto);
    if errs != [] then FailureReply(ArgumentNotValid(errs))
    else SuccessReply(AppConstants.USER_LOGIN,
                      MapResult(UserService.Login(db, dto, matches, issue), (a: AuthResponse) => AuthData(a)))
  }

  /** PATCH /{id}/user-role-update: administrators only, answered 200. */
  method UpdateUserRolesEndpoint(db: Database, caller: Authorization.Caller, id: int, roles: set<Role>)
      returns (reply: Reply)
    requires db.Valid()
    modifies db
    ensures db.Valid()
    ensures !Authorization.Permits(db, caller, Authorization.UpdateUserRoles) ==>
              reply == Propagate(AuthorizationDenied) && unchanged(db)
    ensures Authorization.Permits(db, caller, Authorization.UpdateUserRoles) ==>
              && (id !in old(db.users) ==> reply == Answer(Error(404, AppConstants.USER_NOT_FOUND, None)))
              && (id in old(db.users) && IsNotAdminRole(old(db.users[id].roles)) ==>
                    reply == Propagate(AccessDenied(AppConstants.ACCESS_DENIED)))
              && (id in old(db.users) && !IsNotAdminRole(old(db.users[id].roles)) ==>
                    && db.users == old(db.users)[id := old(db.users[id]).(roles := Some(roles))]
                    && reply == Answer(Success(AppConstants.ROLE_UPDATE,
                                               Some(UserData(UserService.ToUserResponse(db.users[id]))))))
    ensures !(reply.Answer? && reply.response.status == 200) ==> unchanged(db)
    ensures db.tasks == old(db.tasks) && db.comments == old(db.comments) && db.notifications == old(db.notifications)
    ensures db.nextUserId == old(db.nextUserId) && db.nextTaskId == old(db.nextTaskId)
    ensures db.nextCommentId == old(db.nextCommentId)
  {
    if !Authorization.Permits(db, caller, Authorization.UpdateUserRoles) {
      return Propagate(AuthorizationDenied);
    }
    var r := UserService.UpdateUserRoles(db, id, roles);
    reply := SuccessReply(AppConstants.ROLE_UPDATE, MapResult(r, (u: UserResponse) => UserData(u)));
  }

  /** GET /all-users: any authenticated caller, answered 200 with every user. */
  function GetAllUsersEndpoint(db: Database, caller: Authorization.Caller): (reply: Reply)
    reads db
    requires db.Valid()
    ensures !Authorization.Permits(db, caller, Authorization.GetAllUsers) ==> reply == Propagate(AuthorizationDenied)
    ensures Authorization.Permits(db, caller, Authorization.GetAllUsers) ==>
              && reply.Answer? && reply.response.status == 200
              && reply.response.message == AppConstants.USER_LIST
              && reply.response.data.Some? && reply.response.data.value.UserList?
              && |reply.response.data.value.users| == |db.users|
              && reply.response.data.value.users == UserService.GetAllUsers(db)
  {
    if !Authorization.Permits(db, caller, Authorization.GetAllUsers) then Propagate(AuthorizationDenied)
    else Answer(Success(AppConstants.USER_LIST, Some(UserList(UserService.GetAllUsers(db)))))
  }

  /** GET /{id}/user-info: any authenticated caller, answered 200 with that user. */
  function GetUserEndpoint(db: Database, caller: Authorization.Caller, id: int): (reply: Reply)
    reads db
    ensures !Authorization.Permits(db, caller, Authorization.GetUser) ==> reply == Propagate(AuthorizationDenied)
    ensures Authorization.Permits(db, caller, Authorization.GetUser) && id !in db.users ==>
              reply == Answer(Error(404, AppConstants.USER_NOT_FOUND, None))
    ensures Authorization.Permits(db, caller, Authorization.GetUser) && id in db.users ==>
              reply == Answer(Success(AppConstants.USER_LIST, Some(UserData(UserService.ToUserResponse(db.users[id])))))
  {
    if !Authorization.Permits(db, caller, Authorization.GetUser) then Propagate(AuthorizationDenied)
    else SuccessReply(AppConstants.USER_LIST,
                      MapResult(UserService.GetUserById(db, id), (u: UserResponse) => UserData(u)))
  }

  /** PUT /{id}/user-update: the full registration body is validated; ROLE_USER or
      ROLE_ADMIN; answered 200. */
  method UpdateUserEndpoint(db: Database, caller: Authorization.Caller, id: int, dto: RegisterDto,
                            isEmail: string -> bool) returns (reply: Reply)
    requires db.Valid()
    modifies db
    ensures db.Valid()
    ensures RegisterViolations(dto, isEmail) != [] ==>
              reply == FailureReply(ArgumentNotValid(RegisterViolations(dto, isEmail))) && unchanged(db)
    ensures RegisterViolations(dto, isEmail) == [] && !Authorization.Permits(db, caller, Authorization.UpdateUser) ==>
              reply == Propagate(AuthorizationDenied) && unchanged(db)
    ensures RegisterViolations(dto, isEmail) == [] && Authorization.Permits(db, caller, Authorization.UpdateUser) ==>
              && (id !in old(db.users) ==> reply == Answer(Error(404, AppConstants.USER_NOT_FOUND, None)) && unchanged(db))
              && (id in old(db.users) ==>
                    && db.users == old(db.users)[id := old(db.users[id]).(username := dto.userName.value, email := dto.email.value)]
                    && reply == Answer(Success(AppConstants.USER_UPDATE,
                                               Some(UserData(UserService.ToUserResponse(db.users[id]))))))
    ensures db.tasks == old(db.tasks) && db.comments == old(db.comments) && db.notifications == old(db.notifications)
    ensures db.nextUserId == old(db.nextUserId) && db.nextTaskId == old(db.nextTaskId)
    ensures db.nextCommentId == old(db.nextCommentId)
  {
    var errs := RegisterViolations(dto, isEmail);
    if errs != [] {
      return FailureReply(ArgumentNotValid(errs));
    }
    if !Authorization.Permits(db, caller, Authorization.UpdateUser) {
      return Propagate(AuthorizationDenied);
    }
    var r := UserService.UpdateUser(db, id, dto);
    reply := SuccessReply(AppConstants.USER_UPDATE, MapResult(r, (u: UserResponse) => UserData(u)));
  }

  /** DELETE /{id}/user-delete: administrators only, answered 200 with null data. */
  method DeleteUserEndpoint(db: Database, caller: Authorization.Caller, id: int) returns (reply: Reply)
    requires db.Valid()
    modifies db
    ensures db.Valid()
    ensures !Authorization.Permits(db, caller, Authorization.DeleteUser) ==>
              reply == Propagate(AuthorizationDenied) && unchanged(db)
    ensures Authorization.Permits(db, caller, Authorization.DeleteUser) ==>
              && (id !in old(db.users) ==> reply == Answer(Error(404, AppConstants.USER_NOT_FOUND, None)))
              && (id in old(db.users) && IsNotAdminRole(old(db.users[id].roles)) ==>
                    reply == Propagate(AccessDenied(AppConstants.ROLE_USER_DELETE)))
              && (id in old(db.users) && !IsNotAdminRole(old(db.users[id].roles)) ==>
                    && db.users == old(db.users) - {id}
                    && reply == Answer(Success(AppConstants.USER_DELETE, None)))
    ensures reply != Answer(Success(AppConstants.USER_DELETE, None)) ==> unchanged(db)
    ensures db.tasks == old(db.tasks) && db.comments == old(db.comments) && db.notifications == old(db.notifications)
    ensures db.nextUserId == old(db.nextUserId) && db.nextTaskId == old(db.nextTaskId)
    ensures db.nextCommentId == old(db.nextCommentId)
  {
    if !Authorization.Permits(db, caller, Authorization.DeleteUser) {
      return Propagate(AuthorizationDenied);
    }
    var r := UserService.DeleteUser(db, id);
    reply := DoneReply(AppConstants.USER_DELETE, r);
  }
}
