/**
 * Registration, login and user administration over the user table. The password encoder,
 * the password matcher and the token generator are abstract functions; the operations that
 * change the table are methods on the shared Database.
 */
module UserService {
  import opened Wrappers
  import opened Entities
  import opened Errors
  import opened Repositories
  import opened Security
  import opened UserDtos
  import AppConstants

  /** existsByUsername */
  predicate UsernameTaken(db: Database, name: string)
    reads db
  {
    exists id :: id in db.users && db.users[id].username == name
  }

  /** existsByEmail */
  predicate EmailTaken(db: Database, email: string)
    reads db
  {
    exists id :: id in db.users && db.users[id].email == email
  }

  /** The answer to a successful registration or login: a token for the name and role names. */
  function AuthAnswer(u: User, roles: set<Role>, issue: (string, set<string>) -> string): (a: AuthResponse)
    ensures a.userName == u.username && a.email == u.email && a.roles == RoleNames(roles)
    ensures a.token == issue(u.username, RoleNames(roles))
  {
    AuthResponse(issue(u.username, RoleNames(roles)), u.username, u.email, RoleNames(roles))
  }

  /**
   * register: a username or email already stored is a conflict and nothing is written;
   * otherwise exactly one user is added under the next key, with the encoded password and
   * the role set {ROLE_ADMIN}.
   */
  method Register(db: Database, dto: RegisterDto, encode: string -> string,
                  issue: (string, set<string>) -> string) returns (r: Result<AuthResponse>)
    requires db.Valid() && RegisterComplete(dto)
    modifies db
    ensures db.Valid()
    ensures r.Err? <==> old(UsernameTaken(db, dto.userName.value)) || old(EmailTaken(db, dto.email.value))
    ensures r.Err? ==> r.failure == Conflict(AppConstants.USERNAME_EMAIL_EXISTS) && unchanged(db)
    ensures r.Ok? ==>
              var id := old(db.nextUserId);
              var u := User(id, dto.userName.value, dto.email.value, encode(dto.password.value),
                            Some({ROLE_ADMIN}));
              && id !in old(db.users)
              && db.users == old(db.users)[id := u]
              && db.nextUserId == id + 1
              && r.value == AuthAnswer(u, {ROLE_ADMIN}, issue)
              && r.value.roles == {"ROLE_ADMIN"}
    ensures r.Ok? ==> db.tasks == old(db.tasks) && db.comments == old(db.comments)
                      && db.notifications == old(db.notifications)
                      && db.nextTaskId == old(db.nextTaskId) && db.nextCommentId == old(db.nextCommentId)
  {
    var name, email := dto.userName.value, dto.email.value;
    if UsernameTaken(db, name) || EmailTaken(db, email) {
      return Err(Conflict(AppConstants.USERNAME_EMAIL_EXISTS));
    }
    var user := User(db.nextUserId, name, email, encode(dto.password.value), Some({ROLE_ADMIN}));
    db.users := db.users[user.id := user];
    db.nextUserId := db.nextUserId + 1;
    assert RoleNames({ROLE_ADMIN}) == {"ROLE_ADMIN"};
    r := Ok(AuthAnswer(user, {ROLE_ADMIN}, issue));
  }

  /**
   * login through the framework's user-details authentication: the user is looked up by
   * name, the raw password is matched against the stored encoded one, and the authorities
   * are read. An unknown name and a wrong password are both bad credentials; any other
   * failure of the lookup, and a null role set, surface as internal errors.
   */
  function Login(db: Database, dto: LoginDto, matches: (string, string) -> bool,
                 issue: (string, set<string>) -> string): (r: Result<AuthResponse>)
    reads db
    requires db.Valid() && dto.username.Some? && dto.password.Some?
    ensures r.Ok? <==> && LoadUserByUsername(db, dto.username.value).Ok?
                       && matches(dto.password.value, LoadUserByUsername(db, dto.username.value).value.user.password)
                       && LoadUserByUsername(db, dto.username.value).value.user.roles.Some?
    ensures r.Ok? ==> var u := LoadUserByUsername(db, dto.username.value).value.user;
                      && u.id in db.users && db.users[u.id] == u
                      && u.username == dto.username.value
                      && r.value == AuthAnswer(u, u.roles.value, issue)
    ensures (forall id :: id in db.users ==> db.users[id].username != dto.username.value) ==>
              r == Err(BadCredentials)
    ensures r.Err? ==> r.failure == BadCredentials || r.failure.Internal?
    ensures var lookup := LoadUserByUsername(db, dto.username.value);
            && (lookup.Ok? && !matches(dto.password.value, lookup.value.user.password) ==> r == Err(BadCredentials))
            && (lookup.Err? && lookup.failure.Internal? ==> r == Err(lookup.failure))
            && (lookup.Ok? && matches(dto.password.value, lookup.value.user.password) && lookup.value.user.roles.None? ==>
                  r == Err(Internal("NullPointerException")))
  {
    match LoadUserByUsername(db, dto.username.value)
    case Err(f) => if f.UsernameNotFound? then Err(BadCredentials) else Err(f)
    case Ok(details) =>
      if !matches(dto.password.value, GetPassword(details)) then Err(BadCredentials)
      else match GetAuthorities(details)
        case Err(f) => Err(f)
        case Ok(_) => Ok(AuthAnswer(details.user, details.user.roles.value, issue))
  }

  /**
   * A user stored as registration stores it, under a name no other user has, logs in with
   * the raw password it was registered with, and gets the answer registration gave.
   */
  lemma LoginFindsRegisteredUser(db: Database, id: int, dto: RegisterDto, encode: string -> string,
                                 matches: (string, string) -> bool, issue: (string, set<string>) -> string)
    requires db.Valid() && RegisterComplete(dto)
    requires id in db.users
    requires db.users[id] == User(id, dto.userName.value, dto.email.value, encode(dto.password.value), Some({ROLE_ADMIN}))
    requires forall other :: other in db.users && other != id ==> db.users[other].username != dto.userName.value
    requires matches(dto.password.value, encode(dto.password.value))
    ensures Login(db, LoginDto(dto.userName, dto.password), matches, issue) ==
              Ok(AuthAnswer(db.users[id], {ROLE_ADMIN}, issue))
  {
    assert UsersNamed(db.users, dto.userName.value) == {id};
  }

  /**
   * Registering and then logging in with the same name and password succeeds with the
   * registered user: the login answer is the registration answer, when the password
   * matcher accepts the encoder's output for that password.
   */
  method RegisterThenLogin(db: Database, dto: RegisterDto, encode: string -> string,
                           matches: (string, string) -> bool, issue: (string, set<string>) -> string)
      returns (registered: Result<AuthResponse>, loggedIn: Result<AuthResponse>)
    requires db.Valid() && RegisterComplete(dto)
    requires matches(dto.password.value, encode(dto.password.value))
    modifies db
    ensures db.Valid()
    ensures registered.Err? <==> old(UsernameTaken(db, dto.userName.value)) || old(EmailTaken(db, dto.email.value))
    ensures registered.Ok? ==> loggedIn == registered && loggedIn.value.userName == dto.userName.value
  {
    registered := Register(db, dto, encode, issue);
    if registered.Ok? {
      var id := old(db.nextUserId);
      assert forall other :: other in db.users && other != id ==> db.users[other].username != dto.userName.value by {
        forall other | other in db.users && other != id ensures db.users[other].username != dto.userName.value {
          assert other in old(db.users);
        }
      }
      LoginFindsRegisteredUser(db, id, dto, encode, matches, issue);
    }
    loggedIn := Login(db, LoginDto(dto.userName, dto.password), matches, issue);
  }

  /**
   * deleteUser: an unknown id is not found; a user whose roles are null or only ROLE_USER is
   * refused and kept; otherwise exactly that user is removed.
   */
  method DeleteUser(db: Database, id: int) returns (r: Result<()>)
    requires db.Valid()
    modifies db
    ensures db.Valid()
    ensures id !in old(db.users) ==> r == Err(ResourceNotFound(AppConstants.USER_NOT_FOUND))
    ensures id in old(db.users) && IsNotAdminRole(old(db.users[id].roles)) ==>
              r == Err(AccessDenied(AppConstants.ROLE_USER_DELETE))
    ensures r.Ok? <==> id in old(db.users) && !IsNotAdminRole(old(db.users[id].roles))
    ensures r.Err? ==> unchanged(db)
    ensures r.Ok? ==> && db.users == old(db.users) - {id}
                      && db.tasks == old(db.tasks) && db.comments == old(db.comments)
                      && db.notifications == old(db.notifications)
                      && db.nextUserId == old(db.nextUserId) && db.nextTaskId == old(db.nextTaskId)
                      && db.nextCommentId == old(db.nextCommentId)
  {
    if id !in db.users {
      return Err(ResourceNotFound(AppConstants.USER_NOT_FOUND));
    }
    if IsNotAdminRole(db.users[id].roles) {
      return Err(AccessDenied(AppConstants.ROLE_USER_DELETE));
    }
    db.users := db.users - {id};
    r := Ok(());
  }

  /** toUserResponse / UserMapper: the user without its password. */
  function ToUserResponse(u: User): (resp: UserResponse)
    ensures resp.id == u.id && resp.username == u.username && resp.email == u.email
    ensures resp.roles == u.roles
  {
    UserResponse(u.id, u.username, u.email, u.roles)
  }

  /** getUserById: the stored user's response, or not found. */
  function GetUserById(db: Database, id: int): (r: Result<UserResponse>)
    reads db
    ensures r.Ok? <==> id in db.users
    ensures r.Ok? ==> r.value == ToUserResponse(db.users[id])
    ensures r.Err? ==> r.failure == ResourceNotFound(AppConstants.USER_NOT_FOUND)
  {
    if id in db.users then Ok(ToUserResponse(db.users[id]))
    else Err(ResourceNotFound(AppConstants.USER_NOT_FOUND))
  }

  /**
   * updateUser: replaces the username and email of an existing user and nothing else; the
   * new name and email are not checked against the other users.
   */
  method UpdateUser(db: Database, id: int, dto: RegisterDto) returns (r: Result<UserResponse>)
    requires db.Valid() && dto.userName.Some? && dto.email.Some?
    modifies db
    ensures db.Valid()
    ensures r.Ok? <==> id in old(db.users)
    ensures r.Err? ==> r.failure == ResourceNotFound(AppConstants.USER_NOT_FOUND) && unchanged(db)
    ensures r.Ok? ==>
              var before := old(db.users[id]);
              var after := User(id, dto.userName.value, dto.email.value, before.password, before.roles);
              && db.users == old(db.users)[id := after]
              && r.value == ToUserResponse(after)
    ensures db.tasks == old(db.tasks) && db.comments == old(db.comments)
    ensures db.notifications == old(db.notifications) && db.nextUserId == old(db.nextUserId)
    ensures db.nextTaskId == old(db.nextTaskId) && db.nextCommentId == old(db.nextCommentId)
  {
    if id !in db.users {
      return Err(ResourceNotFound(AppConstants.USER_NOT_FOUND));
    }
    var user := db.users[id];
    user := user.(username := dto.userName.value);
    user := user.(email := dto.email.value);
    db.users := db.users[id := user];
    r := Ok(ToUserResponse(user));
  }

  /** The responses for the users under `ids`, in that order. */
  function ResponsesOf(users: map<int, User>, ids: seq<int>): (rs: seq<UserResponse>)
    requires forall k :: 0 <= k < |ids| ==> ids[k] in users
    ensures |rs| == |ids|
    ensures forall k :: 0 <= k < |ids| ==> rs[k] == ToUserResponse(users[ids[k]])
  {
    if ids == [] then [] else [ToUserResponse(users[ids[0]])] + ResponsesOf(users, ids[1..])
  }

  /** getAllUsers: one response per stored user, copied from it, in ascending id. */
  function GetAllUsers(db: Database): (rs: seq<UserResponse>)
    reads db
    requires db.Valid()
    ensures |rs| == |db.users|
    ensures forall k :: 0 <= k < |rs| ==> rs[k].id in db.users && rs[k] == ToUserResponse(db.users[rs[k].id])
    ensures forall id :: id in db.users ==> exists k :: 0 <= k < |rs| && rs[k].id == id
    ensures forall j, k :: 0 <= j < k < |rs| ==> rs[j].id < rs[k].id
  {
    var ids := OrderedIds(db.users.Keys, db.nextUserId);
    OrderedIdsCoverKeys(db.users, db.nextUserId);
    assert forall k :: 0 <= k < |ids| ==> ids[k] in db.users by {
      forall k | 0 <= k < |ids| ensures ids[k] in db.users {
        assert ids[k] in ids;
      }
    }
    ResponsesListEachUser(db.users, ids);
    ResponsesOf(db.users, ids)
  }

  /** Listing ascending keys of a table whose records carry their keys yields one response
      per record, copied from it, in ascending id. */
  lemma ResponsesListEachUser(users: map<int, User>, ids: seq<int>)
    requires forall k :: 0 <= k < |ids| ==> ids[k] in users
    requires forall id :: id in users ==> id in ids
    requires forall id :: id in users ==> users[id].id == id
    requires forall a, b :: 0 <= a < b < |ids| ==> ids[a] < ids[b]
    ensures var rs := ResponsesOf(users, ids);
            && (forall k :: 0 <= k < |rs| ==> rs[k].id in users && rs[k] == ToUserResponse(users[rs[k].id]))
            && (forall id :: id in users ==> exists k :: 0 <= k < |rs| && rs[k].id == id)
            && (forall j, k :: 0 <= j < k < |rs| ==> rs[j].id < rs[k].id)
  {
    var rs := ResponsesOf(users, ids);
    forall k | 0 <= k < |rs| ensures rs[k].id == ids[k] && rs[k] == ToUserResponse(users[rs[k].id]) {
      var u := users[ids[k]];
      assert rs[k] == ToUserResponse(u) && u.id == ids[k];
    }
    forall id | id in users ensures exists k :: 0 <= k < |rs| && rs[k].id == id {
      var k :| 0 <= k < |ids| && ids[k] == id;
      assert rs[k].id == id;
    }
    forall j, k | 0 <= j < k < |rs| ensures rs[j].id < rs[k].id {
      assert rs[j].id == ids[j] && rs[k].id == ids[k];
    }
  }

  /** An empty user table lists no users. */
  lemma NoUsersListNone(db: Database)
    requires db.Valid() && db.users == map[]
    ensures GetAllUsers(db) == []
  {
  }

  /**
   * updateUserRoles: an unknown id is not found; a user whose roles are null or only
   * ROLE_USER is refused and kept; otherwise the role set is replaced by `roles`.
   */
  method UpdateUserRoles(db: Database, id: int, roles: set<Role>) returns (r: Result<UserResponse>)
    requires db.Valid()
    modifies db
    ensures db.Valid()
    ensures id !in old(db.users) ==> r == Err(ResourceNotFound(AppConstants.USER_NOT_FOUND))
    ensures id in old(db.users) && IsNotAdminRole(old(db.users[id].roles)) ==>
              r == Err(AccessDenied(AppConstants.ACCESS_DENIED))
    ensures r.Ok? <==> id in old(db.users) && !IsNotAdminRole(old(db.users[id].roles))
    ensures r.Err? ==> unchanged(db)
    ensures r.Ok? ==> && db.users == old(db.users)[id := old(db.users[id]).(roles := Some(roles))]
                      && r.value == ToUserResponse(db.users[id])
                      && r.value.roles == Some(roles)
    ensures db.tasks == old(db.tasks) && db.comments == old(db.comments)
    ensures db.notifications == old(db.notifications) && db.nextUserId == old(db.nextUserId)
    ensures db.nextTaskId == old(db.nextTaskId) && db.nextCommentId == old(db.nextCommentId)
  {
    if id !in db.users {
      return Err(ResourceNotFound(AppConstants.USER_NOT_FOUND));
    }
    var user := db.users[id];
    if IsNotAdminRole(user.roles) {
      return Err(AccessDenied(AppConstants.ACCESS_DENIED));
    }
    user := user.(roles := Some(roles));
    db.users := db.users[id := user];
    r := Ok(ToUserResponse(user));
  }
}
