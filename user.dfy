/** The user entity and the request records of the service (model/user.go),
    together with the errors that the repository and the use-case layer
    report. */
module Model {

  /** A stored user. The id is assigned by the repository; a request-built
      user carries id 0 until then. */
  datatype User = User(id: int, name: string, email: string)

  /** Body of a create request: both fields are required by the use case. */
  datatype CreateUserRequest = CreateUserRequest(name: string, email: string)

  /** Body of an update request: an empty field means "keep the stored one". */
  datatype UpdateUserRequest = UpdateUserRequest(name: string, email: string)

  /** The errors raised by the in-memory repository and the use-case layer:
      "user not found", "name is required", "email is required" and
      "invalid user ID". */
  datatype Error = UserNotFound | NameRequired | EmailRequired | InvalidUserId

  /** A value or the error that replaced it (Go's `(value, error)` pair). */
  datatype Result<+T> = Ok(value: T) | Err(error: Error)
}
