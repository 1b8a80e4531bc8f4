/** Entities of the administrative web client. */
module Entities {
  import opened Wrappers

  /** The user record the backend returns (no password hash). */
  datatype User = User(id: string, email: string, role: string, isActive: bool, createdAt: string)

  datatype Credentials = Credentials(email: string, password: string)

  datatype LoginResponse = LoginResponse(token: string, user: User)

  /**
   * The `error` and `message` properties of a thrown value as the client
   * reads them; None where the property is missing (an HTML error page
   * thrown as a string has neither).
   */
  datatype Thrown = Thrown(error: Option<string>, message: Option<string>)

  /** The error a login attempt reports to the page. */
  datatype AuthError = AuthError(error: Option<string>, message: string)
}
