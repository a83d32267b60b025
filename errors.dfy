/** The failures the services raise (src/errors/domainError.ts). */
module Errors {

  /** A business-rule failure; the controllers tell it apart from every other
      exception and answer it with status 400 and its message. */
  datatype DomainError = DomainError(message: string)

  /** A statement the SQLite store refuses because it would break a constraint
      declared by the schema. better-sqlite3 throws it as an ordinary exception. */
  datatype Violation = ForeignKeyViolation | UniqueViolation

  /** What a service call can throw: its own DomainError, or a store exception
      that it lets through unchanged (and that the controllers answer with 500). */
  datatype Fault = Domain(error: DomainError) | Store(violation: Violation)

  const ReviewNotFound := DomainError("Review not found")
  const ReviewsNotFound := DomainError("Reviews not found")
  const UserNotFound := DomainError("User not found")
  const UserAlreadyExists := DomainError("User already exists")
  const BadCredentials := DomainError("Username or password is incorrect")
}
