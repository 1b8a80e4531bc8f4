/** Entities of the authentication service. */
module Domain {

  /**
   * A stored account. `passwordHash` is never rendered to clients;
   * `createdAt` is an opaque timestamp.
   */
  datatype User = User(
    id: string,
    email: string,
    passwordHash: string,
    role: string,
    isActive: bool,
    createdAt: string)

  /** The body of a login request, after JSON decoding. */
  datatype LoginRequest = LoginRequest(email: string, password: string)

  /** The body of a successful login reply. */
  datatype LoginResponse = LoginResponse(token: string, user: User)

  /** The body of every error reply. */
  datatype ErrorResponse = ErrorResponse(error: string, message: string)
}
