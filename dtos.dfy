/**
 * The declarative bean-validation constraints, as predicates over nullable fields
 * (None is null). Each follows jakarta.validation: a null value passes every constraint
 * except @NotNull and @NotBlank.
 */
module Constraints {
  import opened Wrappers
  import opened Text
  import opened Errors

  /** @NotBlank: not null, and not all characters at most ' '. */
  predicate NotBlank(s: Option<string>)
  {
    s.Some? && !IsBlank(s.value)
  }

  /** @Size(max = n). */
  predicate SizeAtMost(s: Option<string>, n: nat)
  {
    s.None? || |s.value| <= n
  }

  /** @Size(min = n). */
  predicate SizeAtLeast(s: Option<string>, n: nat)
  {
    s.None? || |s.value| >= n
  }

  /** @FutureOrPresent against the current date `today`. */
  predicate FutureOrPresent(d: Option<int>, today: int)
  {
    d.None? || d.value >= today
  }

  /** The violation one constraint reports: none when it holds, else one field error. */
  function Check(holds: bool, field: string, message: string): (errs: seq<FieldError>)
    ensures holds <==> errs == []
    ensures forall e :: e in errs ==> e.field == field && e.message == message
  {
    if holds then [] else [FieldError(field, message)]
  }
}

/** The request and response records of the task package. */
module TaskDtos {
  import opened Wrappers
  import opened Entities
  import opened Errors
  import opened Constraints

  /** The body of a create or update request; `id` is carried but never read. */
  datatype TaskRequestDto = TaskRequestDto(id: Option<int>, title: Option<string>,
                                           description: Option<string>,
                                           status: Option<TaskStatus>,
                                           priority: Option<TaskPriority>,
                                           targetDate: Option<Date>,
                                           assignedUserId: Option<int>)

  /** All constraints of the task request, for the current date `today`. */
  predicate TaskRequestValid(dto: TaskRequestDto, today: Date)
  {
    && NotBlank(dto.title) && SizeAtMost(dto.title, 100)
    && SizeAtMost(dto.description, 500)
    && dto.status.Some?
    && dto.priority.Some?
    && dto.targetDate.Some? && FutureOrPresent(dto.targetDate, today)
    && dto.assignedUserId.Some?
  }

  /** The fields the task service dereferences: present in every valid request. */
  predicate TaskRequestComplete(dto: TaskRequestDto)
  {
    dto.title.Some? && dto.status.Some? && dto.priority.Some? && dto.targetDate.Some?
    && dto.assignedUserId.Some?
  }

  /** The violations of the title's constraints. */
  function TitleViolations(title: Option<string>): (errs: seq<FieldError>)
    ensures errs == [] <==> NotBlank(title) && SizeAtMost(title, 100)
    ensures forall e :: e in errs ==> e.field == "title"
    ensures title.Some? && |title.value| > 100 ==>
              FieldError("title", "Title must be at most 100 characters") in errs
  {
    Check(NotBlank(title), "title", "Title is mandatory")
    + Check(SizeAtMost(title, 100), "title", "Title must be at most 100 characters")
  }

  /** The violations of the description, status and priority constraints. */
  function DetailViolations(dto: TaskRequestDto): (errs: seq<FieldError>)
    ensures errs == [] <==> SizeAtMost(dto.description, 500) && dto.status.Some? && dto.priority.Some?
    ensures forall e :: e in errs ==> e.field in {"description", "status", "priority"}
  {
    Check(SizeAtMost(dto.description, 500), "description", "Description must be at most 500 characters")
    + Check(dto.status.Some?, "status", "Status must be provided")
    + Check(dto.priority.Some?, "priority", "Priority must be provided")
  }

  /** The violations of the target date and assigned user constraints. */
  function ScheduleViolations(dto: TaskRequestDto, today: Date): (errs: seq<FieldError>)
    ensures errs == [] <==> dto.targetDate.Some? && FutureOrPresent(dto.targetDate, today)
                            && dto.assignedUserId.Some?
    ensures forall e :: e in errs ==> e.field in {"targetDate", "assignedUserId"}
  {
    Check(dto.targetDate.Some?, "targetDate", "Target date is required")
    + Check(FutureOrPresent(dto.targetDate, today), "targetDate", "Target date must be today or in the future")
    + Check(dto.assignedUserId.Some?, "assignedUserId", "Assigned user ID is required")
  }

  /** The field errors validation reports, one per violated constraint, with its message. */
  function TaskRequestViolations(dto: TaskRequestDto, today: Date): (errs: seq<FieldError>)
    ensures errs == [] <==> TaskRequestValid(dto, today)
    ensures forall e :: e in errs ==>
              e.field in {"title", "description", "status", "priority", "targetDate", "assignedUserId"}
    ensures dto.title.Some? && |dto.title.value| > 100 ==>
              FieldError("title", "Title must be at most 100 characters") in errs
  {
    TitleViolations(dto.title) + DetailViolations(dto) + ScheduleViolations(dto, today)
  }

  lemma ValidTaskRequestIsComplete(dto: TaskRequestDto, today: Date)
    requires TaskRequestValid(dto, today)
    ensures TaskRequestComplete(dto)
  {
  }

  /** The body of a comment creation request. */
  datatype CommentRequestDto = CommentRequestDto(content: Option<string>, taskId: Option<int>,
                                                 authorId: Option<int>)

  predicate CommentRequestValid(dto: CommentRequestDto)
  {
    NotBlank(dto.content) && SizeAtMost(dto.content, 300) && dto.taskId.Some? && dto.authorId.Some?
  }

  predicate CommentRequestComplete(dto: CommentRequestDto)
  {
    dto.content.Some? && dto.taskId.Some? && dto.authorId.Some?
  }

  function CommentRequestViolations(dto: CommentRequestDto): (errs: seq<FieldError>)
    ensures errs == [] <==> CommentRequestValid(dto)
    ensures CommentRequestValid(dto) ==> CommentRequestComplete(dto)
    ensures forall e :: e in errs ==> e.field in {"content", "taskId", "authorId"}
  {
    Check(NotBlank(dto.content), "content", "Comment must not be blank")
    + Check(SizeAtMost(dto.content, 300), "content", "Comment must be at most 300 characters")
    + Check(dto.taskId.Some?, "taskId", "Task ID is required")
    + Check(dto.authorId.Some?, "authorId", "Author ID is required")
  }

  /** The task as returned to clients (no assignee, no version). */
  datatype TaskDto = TaskDto(id: int, title: string, description: Option<string>,
                             status: TaskStatus, priority: TaskPriority, targetDate: Date)

  /** The comment as returned to clients. */
  datatype CommentDto = CommentDto(id: int, comment: string, createdAt: DateTime,
                                   taskId: int, authorId: int)
}

/** The request and response records of the user package. */
module UserDtos {
  import opened Wrappers
  import opened Entities
  import opened Errors
  import opened Constraints

  /** Registration (and profile update) body. */
  datatype RegisterDto = RegisterDto(userName: Option<string>, password: Option<string>,
                                     email: Option<string>)

  /**
   * @Email: the format check is the abstract predicate `isEmail`; like Hibernate's
   * validator, it accepts null and the empty string without consulting the format.
   */
  predicate EmailFormat(email: Option<string>, isEmail: string -> bool)
  {
    email.None? || |email.value| == 0 || isEmail(email.value)
  }

  /** All constraints of the registration body. */
  predicate RegisterValid(dto: RegisterDto, isEmail: string -> bool)
  {
    && NotBlank(dto.userName)
    && NotBlank(dto.password) && SizeAtLeast(dto.password, 6)
    && NotBlank(dto.email) && EmailFormat(dto.email, isEmail)
  }

  predicate RegisterComplete(dto: RegisterDto)
  {
    dto.userName.Some? && dto.password.Some? && dto.email.Some?
  }

  /** The violations of the password's constraints. */
  function PasswordViolations(password: Option<string>): (errs: seq<FieldError>)
    ensures errs == [] <==> NotBlank(password) && SizeAtLeast(password, 6)
    ensures forall e :: e in errs ==> e.field == "password"
  {
    Check(NotBlank(password), "password", "Password is required")
    + Check(SizeAtLeast(password, 6), "password", "Password must be at least 6 characters")
  }

  /** The violations of the email's constraints. */
  function EmailViolations(email: Option<string>, isEmail: string -> bool): (errs: seq<FieldError>)
    ensures errs == [] <==> NotBlank(email) && EmailFormat(email, isEmail)
    ensures forall e :: e in errs ==> e.field == "email"
    ensures email == Some("") ==> errs == [FieldError("email", "Email is required")]
  {
    Check(NotBlank(email), "email", "Email is required")
    + Check(EmailFormat(email, isEmail), "email", "Invalid email format")
  }

  function RegisterViolations(dto: RegisterDto, isEmail: string -> bool): (errs: seq<FieldError>)
    ensures errs == [] <==> RegisterValid(dto, isEmail)
    ensures RegisterValid(dto, isEmail) ==> RegisterComplete(dto) && |dto.password.value| >= 6
    ensures forall e :: e in errs ==> e.field in {"userName", "password", "email"}
  {
    Check(NotBlank(dto.userName), "userName", "Username is required")
    + PasswordViolations(dto.password)
    + EmailViolations(dto.email, isEmail)
  }

  /** Login body. */
  datatype LoginDto = LoginDto(username: Option<string>, password: Option<string>)

  predicate LoginValid(dto: LoginDto)
  {
    NotBlank(dto.username) && NotBlank(dto.password)
  }

  function LoginViolations(dto: LoginDto): (errs: seq<FieldError>)
    ensures errs == [] <==> LoginValid(dto)
    ensures LoginValid(dto) ==> dto.username.Some? && dto.password.Some?
    ensures forall e :: e in errs ==> e.field in {"username", "password"}
  {
    Check(NotBlank(dto.username), "username", "Username is required")
    + Check(NotBlank(dto.password), "password", "Password is required")
  }

  /** Login has no minimum password length: a non-blank password shorter than six
      characters passes login validation and fails registration validation, whatever the
      email. */
  lemma LoginHasNoMinimumLength(username: string, password: string, email: Option<string>,
                                isEmail: string -> bool)
    requires NotBlank(Some(username)) && NotBlank(Some(password)) && |password| < 6
    ensures LoginValid(LoginDto(Some(username), Some(password)))
    ensures !RegisterValid(RegisterDto(Some(username), Some(password), email), isEmail)
    ensures PasswordViolations(Some(password)) ==
              [FieldError("password", "Password must be at least 6 characters")]
  {
  }

  /** A user as returned to clients (no password). */
  datatype UserResponse = UserResponse(id: int, username: string, email: string,
                                       roles: Option<set<Role>>)

  /** The login and registration answer: token, identity and role names. */
  datatype AuthResponse = AuthResponse(token: string, userName: string, email: string,
                                       roles: set<string>)
}
