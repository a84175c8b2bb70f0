/** The admin sign-in: password sign-in, then the role lookup in
    `admin_users`, which decides between the portal and a refusal. */
module AdminLogin {
  import opened Wrappers

  const AccessDenied := "Access Denied. This login is for administrators only."

  /** `adminData?.role`, absent when the user has no `admin_users` row. */
  function IsAdminRole(role: Option<string>): (r: bool)
    ensures r <==> role == Some("admin") || role == Some("super_admin")
    ensures role.None? ==> !r
  {
    role.Some? && (role.value == "admin" || role.value == "super_admin")
  }

  /** After `handleLogin`: the error shown, the loading flag, the route
      pushed and whether the user was signed out again. */
  datatype LoginResult = LoginResult(error: string, loading: bool, route: Option<string>, signedOut: bool)

  /** `signIn` is the user id or the sign-in error message; `lookup` the
      role (`None` without a row) or the query's error message. */
  function HandleLogin(signIn: Result<string, string>, lookup: Result<Option<string>, string>): (r: LoginResult)
    ensures !r.loading
    ensures r.route.Some? <==> signIn.Success? && lookup.Success? && IsAdminRole(lookup.value)
    ensures r.route.Some? ==> r.route.value == "/admin" && r.error == ""
    ensures r.signedOut <==> signIn.Success? && lookup.Success? && !IsAdminRole(lookup.value)
    ensures r.signedOut ==> r.error == AccessDenied
    ensures signIn.Failure? ==> r.error == signIn.error && r.route.None? && !r.signedOut
    ensures signIn.Success? && lookup.Failure? ==> r.error == lookup.error && r.route.None? && !r.signedOut
  {
    var cleared := LoginResult("", true, None, false);
    var after :=
      match signIn
      case Failure(message) => cleared.(error := message)
      case Success(_) =>
        match lookup
        case Failure(message) => cleared.(error := message)
        case Success(role) =>
          if IsAdminRole(role) then cleared.(route := Some("/admin"))
          else cleared.(signedOut := true, error := AccessDenied);
    after.(loading := false)
  }
}
