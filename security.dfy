/**
 * The adapter between a stored user and the security framework, and the user lookup the
 * framework calls by name.
 */
module Security {
  import opened Wrappers
  import opened Entities
  import opened Errors
  import opened Repositories
  import AppConstants

  /** The security principal wrapping a stored user. */
  datatype UserInfoDetails = UserInfoDetails(user: User)

  /** The encoded password the framework compares against. */
  function GetPassword(d: UserInfoDetails): (p: string)
    ensures p == d.user.password
  {
    d.user.password
  }

  /** The name the principal is known by (`authentication.name`). */
  function GetUsername(d: UserInfoDetails): (n: string)
    ensures n == d.user.username
  {
    d.user.username
  }

  /** The stored role set, null included. */
  function GetDetailRoles(d: UserInfoDetails): (roles: Option<set<Role>>)
    ensures roles == d.user.roles
  {
    d.user.roles
  }

  /**
   * One authority per role, named by the role's constant name. Streaming a null role set
   * throws a NullPointerException.
   */
  function GetAuthorities(d: UserInfoDetails): (r: Result<set<string>>)
    ensures r.Err? <==> d.user.roles.None?
    ensures r.Err? ==> r.failure.Internal?
    ensures r.Ok? ==> r.value == RoleNames(d.user.roles.value)
  {
    match d.user.roles
    case None => Err(Internal("NullPointerException"))
    case Some(roles) => Ok(RoleNames(roles))
  }

  /** The keys of the users named exactly `username`. */
  function UsersNamed(users: map<int, User>, username: string): set<int>
  {
    set id | id in users && users[id].username == username
  }

  lemma NamedUserExists(users: map<int, User>, username: string)
    requires |UsersNamed(users, username)| > 0
    ensures exists id :: id in users && users[id].username == username
  {
    var named := UsersNamed(users, username);
    if forall id :: id !in named { assert false; }
  }

  lemma SingletonHasOneElement(s: set<int>, a: int, b: int)
    requires |s| == 1 && a in s && b in s
    ensures a == b
  {
    var rest := s - {a};
    assert |rest| == 0;
    assert b in rest || b == a;
  }

  /**
   * findByUsername(..).orElseThrow(..): the one user with that name. No such user is a
   * UsernameNotFoundException; usernames are not kept unique (a profile update may repeat
   * one), and a query that matches several rows fails as a non-unique result.
   */
  function LoadUserByUsername(db: Database, username: string): (r: Result<UserInfoDetails>)
    reads db
    requires db.Valid()
    ensures r.Ok? ==> var id := r.value.user.id;
                      && id in db.users && db.users[id] == r.value.user
                      && r.value.user.username == username
                      && forall other :: other in db.users && db.users[other].username == username ==> other == id
    ensures r == Err(UsernameNotFound(AppConstants.USER_NOT_FOUND)) <==>
              forall id :: id in db.users ==> db.users[id].username != username
    ensures r.Ok? <==> |UsersNamed(db.users, username)| == 1
    ensures |UsersNamed(db.users, username)| > 1 ==>
              r == Err(Internal("IncorrectResultSizeDataAccessException"))
    ensures r.Err? ==> r.failure.UsernameNotFound? || r.failure.Internal?
  {
    var named := UsersNamed(db.users, username);
    if |named| == 0 then
      assert forall id :: id in db.users ==> db.users[id].username != username by {
        assert named == {};
        forall id | id in db.users ensures db.users[id].username != username {
          assert id !in named;
        }
      }
      Err(UsernameNotFound(AppConstants.USER_NOT_FOUND))
    else if |named| == 1 then
      NamedUserExists(db.users, username);
      var id :| id in db.users && db.users[id].username == username;
      assert id in named;
      assert forall other :: other in db.users && db.users[other].username == username ==> other == id by {
        forall other | other in db.users && db.users[other].username == username ensures other == id {
          assert other in named;
          SingletonHasOneElement(named, id, other);
        }
      }
      Ok(UserInfoDetails(db.users[id]))
    else
      NamedUserExists(db.users, username);
      Err(Internal("IncorrectResultSizeDataAccessException"))
  }
}

/** The bean-backed check used by the comment-deletion rule. */
module CommentSecurity {
  import opened Repositories

  /**
   * Whether the stored comment `commentId` was written by the user named `username`; a
   * missing comment, or one whose author is no longer stored, is not authored by anyone.
   */
  function IsCommentAuthor(db: Database, commentId: int, username: string): (b: bool)
    reads db
    ensures b <==> && commentId in db.comments
                   && db.comments[commentId].authorId in db.users
                   && db.users[db.comments[commentId].authorId].username == username
  {
    if commentId !in db.comments then false
    else
      var c := db.comments[commentId];
      c.authorId in db.users && db.users[c.authorId].username == username
  }
}
