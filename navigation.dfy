/** The router's current location; `navigate(p)` sets it to `p`. */
module Navigation {

  const LoginPath := "/login"
  const SignupPath := "/signup"

  /** The profile's path, where a completed login or signup navigates. */
  const UserPath := "/user"

  class Location {
    var path: string

    constructor (path: string)
      ensures this.path == path
    {
      this.path := path;
    }
  }
}
