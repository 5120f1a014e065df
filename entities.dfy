/**
 * The persistent records: users, tasks and comments, as values. Identifiers are the
 * database's generated keys; a Java null reference is Option's None.
 */
module Entities {
  import opened Wrappers
  import opened Text

  /** A LocalDate, counted in days. */
  type Date = int
  /** A LocalDateTime, as an abstract instant. */
  type DateTime = int

  datatype Role = ROLE_USER | ROLE_ADMIN

  /** Enum.name(): the authority string a role stands for. */
  function RoleName(r: Role): (s: string)
    ensures |s| > 5 && s[..5] == "ROLE_"
  {
    match r
    case ROLE_USER => "ROLE_USER"
    case ROLE_ADMIN => "ROLE_ADMIN"
  }

  lemma RoleNameInjective(a: Role, b: Role)
    ensures RoleName(a) == RoleName(b) ==> a == b
  {
    if a != b {
      assert RoleName(a)[5] != RoleName(b)[5];
    }
  }

  /** The names of a set of roles (a stream of role.name() collected to a set). */
  function RoleNames(roles: set<Role>): (names: set<string>)
    ensures forall r :: r in roles ==> RoleName(r) in names
    ensures forall n :: n in names ==> exists r :: r in roles && RoleName(r) == n
  {
    set r | r in roles :: RoleName(r)
  }

  /** Distinct roles have distinct names, so no name is lost by collecting to a set. */
  lemma RoleNamesCount(roles: set<Role>)
    ensures |RoleNames(roles)| == |roles|
  {
    var names := RoleNames(roles);
    forall n | n in names ensures n == "ROLE_USER" || n == "ROLE_ADMIN" {
      var r :| r in roles && RoleName(r) == n;
      match r
      case ROLE_USER =>
      case ROLE_ADMIN =>
    }
    forall r | r in roles ensures r == ROLE_USER || r == ROLE_ADMIN {
      match r
      case ROLE_USER =>
      case ROLE_ADMIN =>
    }
    assert "ROLE_USER"[5] != "ROLE_ADMIN"[5];
    assert RoleName(ROLE_USER) == "ROLE_USER" && RoleName(ROLE_ADMIN) == "ROLE_ADMIN";
    if ROLE_USER in roles && ROLE_ADMIN in roles {
      assert roles == {ROLE_USER, ROLE_ADMIN};
      assert names == {"ROLE_USER", "ROLE_ADMIN"};
    } else if ROLE_USER in roles {
      assert roles == {ROLE_USER};
      assert names == {"ROLE_USER"};
    } else if ROLE_ADMIN in roles {
      assert roles == {ROLE_ADMIN};
      assert names == {"ROLE_ADMIN"};
    } else {
      assert roles == {};
      assert names == {};
    }
  }

  /** A one-element set holding ROLE_USER is {ROLE_USER}. */
  lemma SingleRoleIsUser(roles: set<Role>)
    requires |roles| == 1 && ROLE_USER in roles
    ensures roles == {ROLE_USER}
  {
    var rest := roles - {ROLE_USER};
    assert |rest| == 0;
  }

  /**
   * The guard shared by user deletion, role update and task deletion: the role set is null,
   * or it has exactly one element and that element is ROLE_USER. The size-and-membership
   * test is the same as "null or exactly {ROLE_USER}".
   */
  function IsNotAdminRole(roles: Option<set<Role>>): (b: bool)
    ensures b <==> roles == None || roles == Some({ROLE_USER})
  {
    if roles.Some? && |roles.value| == 1 && ROLE_USER in roles.value then
      SingleRoleIsUser(roles.value);
      true
    else roles.None?
  }

  /** A role set that holds ROLE_ADMIN never trips the guard, whatever else it holds. */
  lemma AdminPassesGuard(roles: set<Role>)
    requires ROLE_ADMIN in roles
    ensures !IsNotAdminRole(Some(roles))
  {
  }

  /** A stored user; `password` is the encoded (hashed) password. */
  datatype User = User(id: int, username: string, email: string, password: string,
                       roles: Option<set<Role>>)

  datatype TaskStatus = TODO | IN_PROGRESS | DONE
  datatype TaskPriority = LOW | MEDIUM | HIGH

  /**
   * A stored task. `assignee` is the id of the assigned user (None: no assigned user);
   * the comments collection is the set of stored comments whose `taskId` is this id.
   */
  datatype Task = Task(id: int, title: string, description: Option<string>,
                       status: TaskStatus, priority: TaskPriority, targetDate: Date,
                       assignee: Option<int>, version: int)

  /**
   * A freshly constructed Task: status TODO, priority MEDIUM, version 0 and no assignee.
   * The title and date of `new Task()` are null; here they are placeholders that every
   * service path overwrites before the task is saved.
   */
  function NewTask(): (t: Task)
    ensures t.status == TODO && t.priority == MEDIUM
    ensures t.version == 0 && t.assignee == None && t.description == None
  {
    Task(0, "", None, TODO, MEDIUM, 0, None, 0)
  }

  /** The column and bean-validation constraints a persisted task must meet. */
  predicate TaskConstraints(t: Task, today: Date)
  {
    && !IsBlank(t.title)
    && t.targetDate >= today
    && t.assignee.Some?
  }

  /** A stored comment; `taskId` and `authorId` are the required references. */
  datatype Comment = Comment(id: int, content: string, createdAt: DateTime,
                             taskId: int, authorId: int, version: int)

  /** The constraint a persisted comment must meet: its content is not blank. */
  predicate CommentConstraints(c: Comment)
  {
    !IsBlank(c.content)
  }
}
