/**
 * The method-security rules on the controllers, as a decision table over the caller's
 * authentication.
 */
module Authorization {
  import opened Wrappers
  import opened Repositories
  import opened Security
  import opened JwtFilter
  import opened CommentSecurity

  /** The caller as method security sees it: anonymous, or a name with authorities. */
  datatype Caller = Anonymous | Authenticated(name: string, authorities: set<string>)

  /** The caller of a request whose security context the filter left as `context`. */
  function CallerOf(context: Option<Authentication>): (c: Caller)
    ensures context.None? <==> c.Anonymous?
    ensures context.Some? ==> c == Authenticated(GetUsername(context.value.principal), context.value.authorities)
  {
    match context
    case None => Anonymous
    case Some(auth) => Authenticated(GetUsername(auth.principal), auth.authorities)
  }

  /** `authentication.name`: the anonymous token's principal is "anonymousUser". */
  function Name(c: Caller): string
  {
    if c.Anonymous? then "anonymousUser" else c.name
  }

  /** The authorities the caller holds; the anonymous token holds ROLE_ANONYMOUS. */
  function Authorities(c: Caller): set<string>
  {
    if c.Anonymous? then {"ROLE_ANONYMOUS"} else c.authorities
  }

  /** hasRole('X'): the caller holds the authority "ROLE_X". */
  predicate HasRole(c: Caller, role: string)
  {
    "ROLE_" + role in Authorities(c)
  }

  /** isAuthenticated(): any caller that is not anonymous. */
  predicate IsAuthenticated(c: Caller)
  {
    c.Authenticated?
  }

  /** An authenticated caller's role test is plain membership of the prefixed name. */
  lemma HasRoleIsMembership(name: string, authorities: set<string>)
    ensures HasRole(Authenticated(name, authorities), "USER") <==> "ROLE_USER" in authorities
    ensures HasRole(Authenticated(name, authorities), "ADMIN") <==> "ROLE_ADMIN" in authorities
  {
    assert "ROLE_" + "USER" == "ROLE_USER";
    assert "ROLE_" + "ADMIN" == "ROLE_ADMIN";
  }

  /** The anonymous caller holds neither application role. */
  lemma AnonymousHoldsNoRole()
    ensures !HasRole(Anonymous, "USER") && !HasRole(Anonymous, "ADMIN")
  {
    assert "ROLE_" + "USER" != "ROLE_ANONYMOUS" by { assert ("ROLE_" + "USER")[5] != "ROLE_ANONYMOUS"[5]; }
    assert "ROLE_" + "ADMIN" != "ROLE_ANONYMOUS" by { assert ("ROLE_" + "ADMIN")[6] != "ROLE_ANONYMOUS"[6]; }
  }

  /** The controller endpoints. */
  datatype Endpoint =
    | Register | Login | UpdateUserRoles | GetAllUsers | GetUser | UpdateUser | DeleteUser
    | CreateTask | GetTask | GetAllTasks | UpdateTask | DeleteTask
    | CreateComment | GetCommentsByTask | DeleteComment(commentId: int)

  /**
   * The rule each endpoint carries; registration and login carry none. An anonymous caller
   * passes only those two, and the deletion of a comment whose author is named
   * "anonymousUser".
   */
  function Permits(db: Database, c: Caller, e: Endpoint): (b: bool)
    reads db
    ensures e.Register? || e.Login? ==> b
    ensures b && c.Anonymous? ==>
              e.Register? || e.Login? || (e.DeleteComment? && IsCommentAuthor(db, e.commentId, "anonymousUser"))
  {
    AnonymousHoldsNoRole();
    match e
    case Register => true
    case Login => true
    case UpdateUserRoles => HasRole(c, "ADMIN")
    case GetAllUsers => IsAuthenticated(c)
    case GetUser => IsAuthenticated(c)
    case UpdateUser => HasRole(c, "USER") || HasRole(c, "ADMIN")
    case DeleteUser => HasRole(c, "ADMIN")
    case CreateTask => HasRole(c, "USER") || HasRole(c, "ADMIN")
    case GetTask => HasRole(c, "USER") || HasRole(c, "ADMIN")
    case GetAllTasks => HasRole(c, "ADMIN")
    case UpdateTask => HasRole(c, "USER") || HasRole(c, "ADMIN")
    case DeleteTask => HasRole(c, "ADMIN")
    case CreateComment => IsAuthenticated(c)
    case GetCommentsByTask => IsAuthenticated(c)
    case DeleteComment(id) => HasRole(c, "USER") || IsCommentAuthor(db, id, Name(c))
  }

  /** Comment deletion: a ROLE_USER holder or the comment's author, and nobody else. */
  lemma DeleteCommentRule(db: Database, name: string, authorities: set<string>, id: int)
    ensures Permits(db, Authenticated(name, authorities), DeleteComment(id)) <==>
              "ROLE_USER" in authorities
              || (id in db.comments && db.comments[id].authorId in db.users
                  && db.users[db.comments[id].authorId].username == name)
  {
    HasRoleIsMembership(name, authorities);
  }

  /** An administrator who holds no other role and did not write the comment may not
      delete it. */
  lemma AdminAloneCannotDeleteOthersComment(db: Database, name: string, id: int)
    requires !IsCommentAuthor(db, id, name)
    ensures !Permits(db, Authenticated(name, {"ROLE_ADMIN"}), DeleteComment(id))
  {
    DeleteCommentRule(db, name, {"ROLE_ADMIN"}, id);
  }

  /** Administrator-only endpoints refuse a caller holding only ROLE_USER. */
  lemma PlainUserKeptFromAdminEndpoints(db: Database, name: string)
    ensures !Permits(db, Authenticated(name, {"ROLE_USER"}), UpdateUserRoles)
    ensures !Permits(db, Authenticated(name, {"ROLE_USER"}), DeleteUser)
    ensures !Permits(db, Authenticated(name, {"ROLE_USER"}), GetAllTasks)
    ensures !Permits(db, Authenticated(name, {"ROLE_USER"}), DeleteTask)
    ensures Permits(db, Authenticated(name, {"ROLE_USER"}), CreateTask)
  {
    HasRoleIsMembership(name, {"ROLE_USER"});
  }

  /** A caller holding ROLE_ADMIN passes every rule except comment deletion. */
  lemma AdminPassesAllButCommentDeletion(db: Database, name: string, authorities: set<string>, e: Endpoint)
    requires "ROLE_ADMIN" in authorities && !e.DeleteComment?
    ensures Permits(db, Authenticated(name, authorities), e)
  {
    HasRoleIsMembership(name, authorities);
  }
}
