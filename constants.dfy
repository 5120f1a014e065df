/** The fixed strings of the application (role names, success and error messages). */
module AppConstants {
  const ROLE_USER := "USER"
  const ROLE_ADMIN := "ADMIN"

  const AUTH_HEADER := "Authorization"
  const TOKEN_PREFIX := "Bearer "

  const USER_REGISTER := "User registered successfully"
  const USER_LOGIN := "Login successfully"
  const ROLE_UPDATE := "user role has been updated"
  const USER_LIST := "Fetch user successfully"
  const USER_UPDATE := "User updated successfully"
  const USER_DELETE := "User deleted successfully"

  const USER_NOT_FOUND := "User not found"
  const USER_NOT_AVAILABLE := "No user available for assigned user id "
  const TASK_NOT_FOUND := "Task not found with ID: "
  const INVALID_CREDENTIALS := "Invalid username or password"
  const USERNAME_EMAIL_EXISTS := "Username or Email already exists"
  const ACCESS_DENIED := "ROLE_USER are not allowed to modify."
  const ROLE_USER_DELETE := "ROLE_USER are not allowed to delete."
  const CONFLICT_EXCEPTION := "Version mismatch: This task was modified by another user."

  const TASK_CREATED := "Task created successfully"
  const TASK_FETCH := "Fetch task successfully"
  const TASK_UPDATE := "Task updated successfully"
  const TASK_DELETE := "Task deleted successfully"

  const COMMENT_CREATED := "Comment created successfully"
  const COMMENT_FETCH := "Fetch Comment successfully"
  const COMMENT_DELETE := "Comment deleted successfully"

  /** Messages that are literals in the service code rather than named constants. */
  const TASK_NOT_FOUND_PLAIN := "Task not found"
  const AUTHOR_NOT_FOUND := "Author not found"
  const COMMENT_NOT_FOUND := "Comment not found"
  const UNASSIGNED_TASK_DELETE := "Cannot delete task without an assigned user."
  const VALIDATION_FAILED := "Validation failed"
  const INTERNAL_SERVER_ERROR := "Internal Server Error"
  /** The persistence exception of a rejected insert; only its kind reaches the client. */
  const SAVE_FAILED := "could not execute statement"

  /** Prefixes of the notifications published to /topic/updates. */
  const CREATED_PREFIX := "\U{1F195} Task created: "
  const UPDATED_PREFIX := "\U{270F}\U{FE0F} Task updated: "
  const DELETED_PREFIX := "\U{274C} Task deleted: "
  const BELL_PREFIX := "\U{1F514} "
}
